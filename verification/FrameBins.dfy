/**
 One bin of the frame allocator in aoo/src/data_frame.cpp: a Treiber stack without a tag.

 Frames are named by numbers, one event is one access to shared memory, and the owner of a frame
 may overwrite its `next` word (the frame storage links frames through it). Without a tag the
 compare-and-swap of allocate() cannot tell a head that has come back from one that has never
 changed. With one allocating thread and any number of deallocating ones this does not matter;
 with two allocating threads it does.
 */
module FrameBins {
  import opened Wrappers

  datatype Pc =
    | Idle
    | AllocLoaded(seen: Option<nat>)                // head read
    | AllocRead(frame: nat, next: Option<nat>)      // head and its next read, CAS pending
    | FreeLoaded(frame: nat, seen: Option<nat>)     // head read, next not yet written
    | FreeLinked(frame: nat)                        // frame->next written, CAS pending

  datatype State = State(
    head: Option<nat>,
    next: map<nat, Option<nat>>,   // the `next` word of every frame obtained from the system
    owner: map<nat, nat>,          // frames handed out, and the thread that owns each
    pcs: map<nat, Pc>)

  datatype Event =
    | AllocLoad(t: nat)
    | AllocNext(t: nat)
    | AllocCas(t: nat)
    | AllocNew(t: nat, frame: nat)       // allocate_frame() for an empty bin
    | Reserve(t: nat, frame: nat)        // allocate_frame() in reserve()
    | FreeLoad(t: nat, frame: nat)
    | FreeLink(t: nat)
    | FreeCas(t: nat)
    | Scribble(t: nat, frame: nat, word: Option<nat>)
    | HandOver(t: nat, frame: nat, to: nat)
    | Release(t: nat)                    // release_memory(), while nobody else uses the bin

  predicate Freeing(pc: Pc, f: nat) { (pc.FreeLoaded? || pc.FreeLinked?) && pc.frame == f }

  predicate Allocating(pc: Pc) { pc.AllocLoaded? || pc.AllocRead? }

  predicate Owns(s: State, t: nat, f: nat) { f in s.owner && s.owner[f] == t }

  ghost predicate Init(s: State) {
    s.head == None && s.next == map[] && s.owner == map[] && forall t | t in s.pcs :: s.pcs[t] == Idle
  }

  ghost predicate Enabled(s: State, e: Event) {
    e.t in s.pcs &&
    match e
    case AllocLoad(t) => s.pcs[t] == Idle
    // the load of the frame's next word must hit a frame that has not been released
    case AllocNext(t) => s.pcs[t].AllocLoaded? && s.pcs[t].seen.Some? && s.pcs[t].seen.value in s.next
    case AllocCas(t) => s.pcs[t].AllocRead?
    case AllocNew(t, f) => s.pcs[t] == AllocLoaded(None) && f !in s.next
    case Reserve(t, f) => s.pcs[t] == Idle && f !in s.next
    case FreeLoad(t, f) => s.pcs[t] == Idle && Owns(s, t, f)
    case FreeLink(t) => s.pcs[t].FreeLoaded? && s.pcs[t].frame in s.next
    case FreeCas(t) => s.pcs[t].FreeLinked? && s.pcs[t].frame in s.next
    case Scribble(t, f, _) => Owns(s, t, f) && f in s.next && !Freeing(s.pcs[t], f)
    case HandOver(t, f, to) => Owns(s, t, f) && to in s.pcs && !Freeing(s.pcs[t], f)
    case Release(t) => forall u | u in s.pcs :: s.pcs[u] == Idle
  }

  /** The compare-and-swap of an event succeeds. */
  predicate Succeeds(s: State, e: Event) {
    e.t in s.pcs &&
    var pc := s.pcs[e.t];
    match e
    case AllocCas(_) => pc.AllocRead? && s.head == Some(pc.frame)
    // the expected head is in the frame's own next word
    case FreeCas(_) => pc.FreeLinked? && pc.frame in s.next && s.head == s.next[pc.frame]
    case _ => false
  }

  ghost function Apply(s: State, e: Event): State
    requires Enabled(s, e)
  {
    match e
    case AllocLoad(t) => s.(pcs := s.pcs[t := AllocLoaded(s.head)])
    case AllocNext(t) =>
      var f := s.pcs[t].seen.value;
      s.(pcs := s.pcs[t := AllocRead(f, s.next[f])])
    case AllocCas(t) =>
      var f, n := s.pcs[t].frame, s.pcs[t].next;
      if Succeeds(s, e) then s.(head := n, owner := s.owner[f := t], pcs := s.pcs[t := Idle])
      else s.(pcs := s.pcs[t := AllocLoaded(s.head)])
    case AllocNew(t, f) => s.(next := s.next[f := None], owner := s.owner[f := t], pcs := s.pcs[t := Idle])
    case Reserve(t, f) => s.(next := s.next[f := None], owner := s.owner[f := t])
    case FreeLoad(t, f) => s.(pcs := s.pcs[t := FreeLoaded(f, s.head)])
    case FreeLink(t) =>
      var f := s.pcs[t].frame;
      s.(next := s.next[f := s.pcs[t].seen], pcs := s.pcs[t := FreeLinked(f)])
    case FreeCas(t) =>
      var f := s.pcs[t].frame;
      if Succeeds(s, e) then s.(head := Some(f), owner := s.owner - {f}, pcs := s.pcs[t := Idle])
      else s.(pcs := s.pcs[t := FreeLoaded(f, s.head)])
    case Scribble(t, f, w) => s.(next := s.next[f := w])
    case HandOver(t, f, to) => s.(owner := s.owner[f := to])
    case Release(_) => s.(head := None, next := map f | f in s.next && f in s.owner :: s.next[f])
  }

  /** Any interleaving of any threads. */
  ghost predicate Steps(tr: seq<State>, es: seq<Event>) {
    && |tr| == |es| + 1
    && Init(tr[0])
    && forall i | 0 <= i < |es| :: Enabled(tr[i], es[i]) && tr[i + 1] == Apply(tr[i], es[i])
  }

  /** Any interleaving in which `a` is the only thread that allocates. */
  ghost predicate Trace(tr: seq<State>, es: seq<Event>, a: nat) {
    Steps(tr, es) && forall i | 0 <= i < |es| && es[i].AllocLoad? :: es[i].t == a
  }

  function Succ(list: seq<nat>, i: nat): Option<nat> {
    if i + 1 < |list| then Some(list[i + 1]) else None
  }

  /** `list` is the chain of free frames from the head on, without repetition. */
  ghost predicate IsList(s: State, list: seq<nat>) {
    && (forall i | 0 <= i < |list| :: list[i] in s.next)
    && (forall i, j | 0 <= i < j < |list| :: list[i] != list[j])
    && s.head == (if list == [] then None else Some(list[0]))
    && (forall i | 0 <= i < |list| :: s.next[list[i]] == Succ(list, i))
  }

  /** Every frame is free or handed out, never both. */
  ghost predicate Partition(s: State, list: seq<nat>) {
    && (forall f | f in list :: f !in s.owner)
    && (forall f | f in s.owner :: f in s.next)
    && (forall f | f in s.next :: f in list || f in s.owner)
  }

  ghost predicate FreersOwn(s: State) {
    forall t | t in s.pcs && (s.pcs[t].FreeLoaded? || s.pcs[t].FreeLinked?) :: Owns(s, t, s.pcs[t].frame)
  }

  /**
   Only the allocating thread removes frames, so what it has seen as the head is still somewhere
   in the chain, and the `next` word it has read there is still right.
   */
  ghost predicate SeenStays(s: State, list: seq<nat>, a: nat) {
    forall t | t in s.pcs && Allocating(s.pcs[t]) ::
      && t == a
      && (s.pcs[t].AllocLoaded? && s.pcs[t].seen.Some? ==> s.pcs[t].seen.value in list)
      && (s.pcs[t].AllocRead? ==> s.pcs[t].frame in list && s.pcs[t].frame in s.next && s.pcs[t].next == s.next[s.pcs[t].frame])
  }

  ghost predicate Inv(s: State, list: seq<nat>, a: nat) {
    IsList(s, list) && Partition(s, list) && FreersOwn(s) && SeenStays(s, list, a)
  }

  /** The chain after an event. */
  ghost function NextList(s: State, list: seq<nat>, e: Event): seq<nat> {
    if e.Release? then []
    else if !Succeeds(s, e) then list
    else if e.FreeCas? then [s.pcs[e.t].frame] + list
    else if list == [] then list
    else list[1..]
  }

  lemma FreeKeeps(s: State, list: seq<nat>, a: nat, t: nat)
    requires Inv(s, list, a) && Enabled(s, FreeCas(t)) && Succeeds(s, FreeCas(t))
    ensures Inv(Apply(s, FreeCas(t)), NextList(s, list, FreeCas(t)), a)
  {
    var s', f := Apply(s, FreeCas(t)), s.pcs[t].frame;
    var list' := [f] + list;
    assert f in s.next && s.next[f] == s.head && s'.next == s.next && s'.head == Some(f) && f !in list;
    PushedList(s, s', list, f);
    hide IsList, Succ;
    PushedPartition(s, list, t);
    PushedSeen(s, list, a, t);
  }

  lemma PushedPartition(s: State, list: seq<nat>, t: nat)
    requires Partition(s, list) && Enabled(s, FreeCas(t)) && Succeeds(s, FreeCas(t))
    ensures Partition(Apply(s, FreeCas(t)), [s.pcs[t].frame] + list)
  {
    var f := s.pcs[t].frame;
    assert forall g :: g in [f] + list <==> g == f || g in list;
  }

  /** A thread that frees another frame still owns it. */
  lemma PushedSeen(s: State, list: seq<nat>, a: nat, t: nat)
    requires FreersOwn(s) && SeenStays(s, list, a) && Enabled(s, FreeCas(t)) && Succeeds(s, FreeCas(t))
    ensures FreersOwn(Apply(s, FreeCas(t))) && SeenStays(Apply(s, FreeCas(t)), [s.pcs[t].frame] + list, a)
  {
    var f, s' := s.pcs[t].frame, Apply(s, FreeCas(t));
    assert forall g | g in list :: g in [f] + list;
    assert s'.next == s.next && s'.pcs == s.pcs[t := Idle] && s'.owner == s.owner - {f};
    assert forall u | u in s.pcs && u != t :: s'.pcs[u] == s.pcs[u];
  }

  lemma PushedList(s: State, s': State, list: seq<nat>, f: nat)
    requires IsList(s, list) && f in s.next && f !in list
    requires s.next[f] == s.head && s'.next == s.next && s'.head == Some(f)
    ensures IsList(s', [f] + list)
  {
    var list' := [f] + list;
    assert forall i | 0 < i < |list'| :: list'[i] == list[i - 1];
    forall i | 0 <= i < |list'| ensures s'.next[list'[i]] == Succ(list', i) {
      if i > 0 {
        assert s.next[list[i - 1]] == Succ(list, i - 1);
      }
    }
  }

  lemma AllocKeeps(s: State, list: seq<nat>, a: nat, t: nat)
    requires Inv(s, list, a) && Enabled(s, AllocCas(t)) && Succeeds(s, AllocCas(t))
    ensures Inv(Apply(s, AllocCas(t)), NextList(s, list, AllocCas(t)), a)
    ensures list != [] && s.pcs[t].frame == list[0] && list[0] !in s.owner && t == a
  {
    var s', f := Apply(s, AllocCas(t)), s.pcs[t].frame;
    assert list != [] && list[0] == f && s'.head == s.next[f] && s'.next == s.next && t == a;
    PoppedList(s, s', list);
    hide IsList, Succ;
    PoppedPartition(s, list, t);
    PoppedSeen(s, list, a, t);
  }

  lemma PoppedPartition(s: State, list: seq<nat>, t: nat)
    requires Partition(s, list) && Enabled(s, AllocCas(t)) && Succeeds(s, AllocCas(t))
    requires list != [] && s.pcs[t].frame == list[0] && list[0] !in list[1..] && list[0] in s.next
    ensures Partition(Apply(s, AllocCas(t)), list[1..]) && list[0] !in s.owner
  {
    var f, rest := list[0], list[1..];
    assert forall g :: g in list <==> g == f || g in rest by {
      assert list == [f] + rest;
    }
    hide Succeeds;
    var s' := Apply(s, AllocCas(t));
    assert s'.next == s.next && s'.owner == s.owner[f := t];
  }

  /** No other thread is allocating. */
  lemma PoppedSeen(s: State, list: seq<nat>, a: nat, t: nat)
    requires FreersOwn(s) && SeenStays(s, list, a) && Enabled(s, AllocCas(t)) && Succeeds(s, AllocCas(t))
    requires list != [] && s.pcs[t].frame == list[0] && list[0] !in s.owner
    ensures FreersOwn(Apply(s, AllocCas(t))) && SeenStays(Apply(s, AllocCas(t)), list[1..], a)
  {
    var f, s' := s.pcs[t].frame, Apply(s, AllocCas(t));
    assert s'.pcs == s.pcs[t := Idle] && s'.owner == s.owner[f := t] && t == a;
    assert forall u | u in s.pcs && u != t :: s'.pcs[u] == s.pcs[u] && !Allocating(s.pcs[u]);
  }

  lemma PoppedList(s: State, s': State, list: seq<nat>)
    requires IsList(s, list) && list != [] && s'.next == s.next && s'.head == s.next[list[0]]
    ensures IsList(s', list[1..]) && list[0] !in list[1..]
  {
    var list' := list[1..];
    assert forall i | 0 <= i < |list'| :: list'[i] == list[i + 1];
    assert s.next[list[0]] == Succ(list, 0);
    forall i | 0 <= i < |list'| ensures s'.next[list'[i]] == Succ(list', i) {
      assert s.next[list[i + 1]] == Succ(list, i + 1);
    }
  }

  lemma QuietKeeps(s: State, list: seq<nat>, a: nat, e: Event)
    requires Inv(s, list, a) && Enabled(s, e) && !Succeeds(s, e) && (e.AllocLoad? ==> e.t == a)
    ensures Inv(Apply(s, e), NextList(s, list, e), a)
  {
    QuietList(s, list, e);
    QuietSeen(s, list, a, e);
  }

  lemma QuietList(s: State, list: seq<nat>, e: Event)
    requires IsList(s, list) && Partition(s, list) && FreersOwn(s) && Enabled(s, e) && !Succeeds(s, e)
    ensures IsList(Apply(s, e), NextList(s, list, e)) && Partition(Apply(s, e), NextList(s, list, e))
  {
    hide Succ;
  }

  lemma QuietSeen(s: State, list: seq<nat>, a: nat, e: Event)
    requires Inv(s, list, a) && Enabled(s, e) && !Succeeds(s, e) && (e.AllocLoad? ==> e.t == a)
    ensures FreersOwn(Apply(s, e)) && SeenStays(Apply(s, e), NextList(s, list, e), a)
  {
    hide Succ;
  }

  /** In every interleaving the free frames form an acyclic chain, disjoint from what is handed out. */
  lemma {:induction false} AlwaysWellFormed(tr: seq<State>, es: seq<Event>, a: nat, i: nat) returns (list: seq<nat>)
    requires Trace(tr, es, a) && i < |tr|
    ensures Inv(tr[i], list, a)
  {
    if i == 0 {
      list := [];
    } else {
      var before := AlwaysWellFormed(tr, es, a, i - 1);
      list := NextList(tr[i - 1], before, es[i - 1]);
      StepKeeps(tr[i - 1], before, a, es[i - 1]);
    }
  }

  lemma StepKeeps(s: State, list: seq<nat>, a: nat, e: Event)
    requires Inv(s, list, a) && Enabled(s, e) && (e.AllocLoad? ==> e.t == a)
    ensures Inv(Apply(s, e), NextList(s, list, e), a)
  {
    if !Succeeds(s, e) {
      QuietKeeps(s, list, a, e);
    } else if e.FreeCas? {
      FreeKeeps(s, list, a, e.t);
    } else {
      AllocKeeps(s, list, a, e.t);
    }
  }

  /** Each frame that allocate() or reserve() comes up with had no owner before. */
  lemma FramesHaveOneOwner(tr: seq<State>, es: seq<Event>, a: nat, i: nat, f: nat)
    requires Trace(tr, es, a) && i < |es| && f in tr[i + 1].owner
    requires f !in tr[i].owner || tr[i + 1].owner[f] != tr[i].owner[f]
    ensures f !in tr[i].owner || (es[i].HandOver? && es[i].frame == f && Owns(tr[i], es[i].t, f))
    ensures f !in tr[i].owner ==> Owns(tr[i + 1], es[i].t, f)
  {
    var list := AlwaysWellFormed(tr, es, a, i);
    if Succeeds(tr[i], es[i]) && es[i].AllocCas? {
      AllocKeeps(tr[i], list, a, es[i].t);
    }
  }

  /** Reading the `next` word of what was the head never touches released memory. */
  lemma AllocNextAlwaysPossible(tr: seq<State>, es: seq<Event>, a: nat, i: nat, t: nat)
    requires Trace(tr, es, a) && i < |tr| && t in tr[i].pcs && tr[i].pcs[t].AllocLoaded? && tr[i].pcs[t].seen.Some?
    ensures Enabled(tr[i], AllocNext(t))
  {
    var list := AlwaysWellFormed(tr, es, a, i);
  }

  /** What an event does to the frames in the bin and to those obtained from the system. */
  ghost predicate Change(s: State, e: Event, free: multiset<nat>, free': multiset<nat>, stock: set<nat>, stock': set<nat>)
    requires e.t in s.pcs
  {
    if e.AllocNew? || e.Reserve? then e.frame !in stock && stock' == stock + {e.frame} && free' == free
    else if e.Release? then free' == multiset{} && stock' == set f | f in stock && f !in free
    else stock' == stock &&
         if !Succeeds(s, e) then free' == free
         else if e.FreeCas? then free' == free + multiset{s.pcs[e.t].frame}
         else if e.AllocCas? then s.pcs[e.t].frame in free && free' == free - multiset{s.pcs[e.t].frame}
         else false
  }

  /**
   In every interleaving with one allocating thread the bin acts as a multiset of frames whose
   operations are atomic: allocate() takes a frame out of it or gets one that the system has not
   given out before, deallocate() puts one in, and release_memory() empties it.
   */
  lemma BinIsMultiset(tr: seq<State>, es: seq<Event>, a: nat, i: nat) returns (list: seq<nat>, list': seq<nat>)
    requires Trace(tr, es, a) && i < |es|
    ensures Inv(tr[i], list, a) && Inv(tr[i + 1], list', a) && es[i].t in tr[i].pcs
    ensures Change(tr[i], es[i], multiset(list), multiset(list'), tr[i].next.Keys, tr[i + 1].next.Keys)
  {
    list := AlwaysWellFormed(tr, es, a, i);
    list' := NextList(tr[i], list, es[i]);
    assert Enabled(tr[i], es[i]) && tr[i + 1] == Apply(tr[i], es[i]) && (es[i].AllocLoad? ==> es[i].t == a);
    hide Trace, Inv, Apply, NextList, Change;
    StepKeeps(tr[i], list, a, es[i]);
    StepChange(tr[i], list, a, es[i]);
  }

  lemma StepChange(s: State, list: seq<nat>, a: nat, e: Event)
    requires Inv(s, list, a) && Enabled(s, e)
    ensures Change(s, e, multiset(list), multiset(NextList(s, list, e)), s.next.Keys, Apply(s, e).next.Keys)
  {
    StockStays(s, list, e);
    if Succeeds(s, e) && e.AllocCas? {
      AllocKeeps(s, list, a, e.t);
      PopMultiset(list);
      hide Inv, Apply, Enabled;
    } else {
      hide Inv, Apply;
    }
  }

  lemma StockStays(s: State, list: seq<nat>, e: Event)
    requires Partition(s, list) && Enabled(s, e)
    ensures var keys := Apply(s, e).next.Keys;
            if e.AllocNew? || e.Reserve? then keys == s.next.Keys + {e.frame}
            else if e.Release? then keys == set f | f in s.next.Keys && f !in multiset(list)
            else keys == s.next.Keys
  {
    hide Succeeds;
    if e.Release? {
      ReleaseChange(s, list);
    }
    hide Partition;
  }

  lemma PopMultiset(list: seq<nat>)
    requires list != []
    ensures list[0] in multiset(list) && multiset(list[1..]) == multiset(list) - multiset{list[0]}
  {
    assert list == [list[0]] + list[1..];
  }

  lemma ReleaseChange(s: State, list: seq<nat>)
    requires Partition(s, list)
    ensures (map f | f in s.next && f in s.owner :: s.next[f]).Keys == set f | f in s.next.Keys && f !in multiset(list)
  {
    assert forall f :: f in multiset(list) <==> f in list;
  }

  // ---------------------------------------------------------------- two allocating threads

  /** One more event. */
  lemma More(tr: seq<State>, es: seq<Event>, e: Event) returns (tr': seq<State>, es': seq<Event>)
    requires Steps(tr, es) && Enabled(tr[|es|], e)
    ensures Steps(tr', es') && es' == es + [e] && tr' == tr + [Apply(tr[|es|], e)]
  {
    hide Enabled, Apply, Init;
    tr', es' := tr + [Apply(tr[|es|], e)], es + [e];
    forall i | 0 <= i < |es'| ensures Enabled(tr'[i], es'[i]) && tr'[i + 1] == Apply(tr'[i], es'[i]) {
      assert tr'[i] == tr[i];
      assert i < |es| ==> es'[i] == es[i] && tr'[i + 1] == tr[i + 1];
    }
  }

  /** An undisturbed deallocate(). */
  lemma FreeAlone(tr: seq<State>, es: seq<Event>, t: nat, f: nat) returns (tr': seq<State>, es': seq<Event>)
    requires Steps(tr, es)
    requires var s := tr[|es|]; t in s.pcs && s.pcs[t] == Idle && Owns(s, t, f) && f in s.next
    ensures Steps(tr', es') && |es'| == |es| + 3
    ensures var s := tr[|es|]; tr'[|es'|] == s.(head := Some(f), next := s.next[f := s.head], owner := s.owner - {f})
  {
    var s := tr[|es|];
    tr', es' := More(tr, es, FreeLoad(t, f));
    tr', es' := More(tr', es', FreeLink(t));
    tr', es' := More(tr', es', FreeCas(t));
    assert tr'[|es'|].pcs == s.pcs;
  }

  /** The first two accesses of allocate(). */
  lemma PeekAlone(tr: seq<State>, es: seq<Event>, t: nat) returns (tr': seq<State>, es': seq<Event>)
    requires Steps(tr, es)
    requires var s := tr[|es|]; t in s.pcs && s.pcs[t] == Idle && s.head.Some? && s.head.value in s.next
    ensures Steps(tr', es') && |es'| == |es| + 2
    ensures var s := tr[|es|];
            tr'[|es'|] == s.(pcs := s.pcs[t := AllocRead(s.head.value, s.next[s.head.value])])
  {
    var s := tr[|es|];
    tr', es' := More(tr, es, AllocLoad(t));
    tr', es' := More(tr', es', AllocNext(t));
    assert tr'[|es'|].pcs == s.pcs[t := AllocRead(s.head.value, s.next[s.head.value])];
  }

  /** An undisturbed allocate(). */
  lemma AllocAlone(tr: seq<State>, es: seq<Event>, t: nat) returns (tr': seq<State>, es': seq<Event>)
    requires Steps(tr, es)
    requires var s := tr[|es|]; t in s.pcs && s.pcs[t] == Idle && s.head.Some? && s.head.value in s.next
    ensures Steps(tr', es') && |es'| == |es| + 3
    ensures var s := tr[|es|];
            tr'[|es'|] == s.(head := s.next[s.head.value], owner := s.owner[s.head.value := t])
  {
    var s := tr[|es|];
    tr', es' := PeekAlone(tr, es, t);
    tr', es' := More(tr', es', AllocCas(t));
    assert tr'[|es'|].pcs == s.pcs;
  }

  /** Thread 2 has two frames from the system. */
  lemma Reserved() returns (tr: seq<State>, es: seq<Event>)
    ensures Steps(tr, es) && |es| == 2
    ensures tr[2] == State(None, map[0 := None, 1 := None], map[0 := 2, 1 := 2], map[1 := Idle, 2 := Idle])
  {
    tr, es := [State(None, map[], map[], map[1 := Idle, 2 := Idle])], [];
    tr, es := More(tr, es, Reserve(2, 0));
    tr, es := More(tr, es, Reserve(2, 1));
  }

  /** Thread 1 has read the head of the bin 0, 1 and its next. */
  lemma SlowAllocation() returns (tr: seq<State>, es: seq<Event>)
    ensures Steps(tr, es) && |es| == 10
    ensures tr[10] == State(Some(0), map[0 := Some(1), 1 := None], map[], map[1 := AllocRead(0, Some(1)), 2 := Idle])
  {
    var idle := map[1 := Idle, 2 := Idle];
    tr, es := Reserved();
    hide Steps, Enabled, Apply;
    tr, es := FreeAlone(tr, es, 2, 1);
    assert tr[5] == State(Some(1), map[0 := None, 1 := None], map[0 := 2], idle);
    tr, es := FreeAlone(tr, es, 2, 0);
    assert tr[8] == State(Some(0), map[0 := Some(1), 1 := None], map[], idle);
    tr, es := PeekAlone(tr, es, 1);
  }

  /** Meanwhile thread 2 takes both frames and returns frame 0. */
  lemma HeadComesBack() returns (tr: seq<State>, es: seq<Event>)
    ensures Steps(tr, es) && |es| == 19
    ensures tr[19] == State(Some(0), map[0 := None, 1 := None], map[1 := 2], map[1 := AllocRead(0, Some(1)), 2 := Idle])
  {
    tr, es := SlowAllocation();
    var pcs := tr[10].pcs;
    hide Steps;
    tr, es := AllocAlone(tr, es, 2);
    assert tr[13] == State(Some(1), map[0 := Some(1), 1 := None], map[0 := 2], pcs);
    tr, es := AllocAlone(tr, es, 2);
    assert tr[16] == State(None, map[0 := Some(1), 1 := None], map[0 := 2, 1 := 2], pcs);
    tr, es := FreeAlone(tr, es, 2, 0);
    assert tr[19].next == map[0 := None, 1 := None] && tr[19].owner == map[1 := 2];
  }

  /**
   With two allocating threads this goes wrong: the stale compare-and-swap of thread 1 succeeds,
   frame 1 is in the bin again although thread 2 owns it, and the next allocation hands it to
   thread 1.
   */
  lemma TwoAllocatorsShareFrame() returns (tr: seq<State>, es: seq<Event>)
    ensures Steps(tr, es) && |es| == 23
    ensures es[19] == AllocCas(1) && Succeeds(tr[19], es[19]) && tr[20].head == Some(1) && Owns(tr[20], 2, 1)
    ensures es[22] == AllocCas(1) && Succeeds(tr[22], es[22]) && Owns(tr[22], 2, 1) && Owns(tr[23], 1, 1)
  {
    tr, es := HeadComesBack();
    tr, es := More(tr, es, AllocCas(1));
    assert tr[20] == State(Some(1), map[0 := None, 1 := None], map[1 := 2, 0 := 1], map[1 := Idle, 2 := Idle]);
    tr, es := More(tr, es, AllocLoad(1));
    tr, es := More(tr, es, AllocNext(1));
    tr, es := More(tr, es, AllocCas(1));
  }
}
