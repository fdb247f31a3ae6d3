/**
 The lightweight semaphore and the auto-reset event of common/sync.cpp, in the
 variant that keeps an atomic counter in front of a native semaphore.

 Every atomic operation of post/set, wait and wait_for is one event of a
 transition system over any number of threads, so a trace is an arbitrary
 interleaving. Negative counts announce waiters; a thread that raises a negative
 count owes one native post.
 */
module Semaphore {

  datatype Kind = Counting | AutoReset

  datatype Pc =
    | Idle
    | Setting(seen: int)     // event::set has read the count and is about to CAS
    | Posting                // a negative count was raised, native post still owed
    | Blocked                // inside the native wait()
    | TimedBlocked           // inside the native wait_for()
    | TimedOut               // the native wait_for() gave up, about to reload the count
    | Reloaded(seen: int)    // the count was reloaded in the recovery loop

  /** The counters `posted`, `absorbed`, `acquired` and `expired` only record history. */
  datatype State = State(
    kind: Kind, count: int, tokens: nat, pcs: map<nat, Pc>,
    posted: nat, absorbed: nat, acquired: nat, expired: nat)

  datatype Event =
    | Post(t: nat)
    | SetLoad(t: nat)
    | SetCas(t: nat)
    | NativePost(t: nat)
    | Wait(t: nat, timed: bool)
    | Wake(t: nat)
    | Timeout(t: nat)
    | Reload(t: nat)
    | Decide(t: nat)

  ghost predicate Init(s: State) {
    && s.count == 0 && s.tokens == 0
    && (forall t | t in s.pcs :: s.pcs[t] == Idle)
    && s.posted == s.absorbed == s.acquired == s.expired == 0
  }

  predicate Enabled(s: State, e: Event) {
    e.t in s.pcs &&
    match e
    case Post(t) => s.kind == Counting && s.pcs[t] == Idle
    case SetLoad(t) => s.kind == AutoReset && s.pcs[t] == Idle
    case SetCas(t) => s.kind == AutoReset && s.pcs[t].Setting?
    case NativePost(t) => s.pcs[t] == Posting
    case Wait(t, _) => s.pcs[t] == Idle
    case Wake(t) => (s.pcs[t] == Blocked || s.pcs[t] == TimedBlocked) && s.tokens > 0
    case Timeout(t) => s.pcs[t] == TimedBlocked
    case Reload(t) => s.pcs[t] == TimedOut
    case Decide(t) => s.pcs[t].Reloaded?
  }

  function At(s: State, t: nat, pc: Pc): State {
    s.(pcs := s.pcs[t := pc])
  }

  function Apply(s: State, e: Event): State
    requires Enabled(s, e)
  {
    match e
    case Post(t) =>
      // fetch_add; a negative old value means a waiter has to be released
      At(s, t, if s.count < 0 then Posting else Idle).(count := s.count + 1, posted := s.posted + 1)
    case SetLoad(t) => At(s, t, Setting(s.count))
    case SetCas(t) =>
      if s.count != s.pcs[t].seen then
        At(s, t, Setting(s.count)) // a failed CAS reloads
      else if s.count >= 0 then
        At(s, t, Idle).(count := 1, posted := s.posted + 1, absorbed := s.absorbed + s.count)
      else
        At(s, t, Posting).(count := s.count + 1, posted := s.posted + 1)
    case NativePost(t) => At(s, t, Idle).(tokens := s.tokens + 1)
    case Wait(t, timed) =>
      if s.count > 0 then
        At(s, t, Idle).(count := s.count - 1, acquired := s.acquired + 1)
      else
        At(s, t, if timed then TimedBlocked else Blocked).(count := s.count - 1)
    case Wake(t) => At(s, t, Idle).(tokens := s.tokens - 1, acquired := s.acquired + 1)
    case Timeout(t) => At(s, t, TimedOut)
    case Reload(t) => At(s, t, Reloaded(s.count))
    case Decide(t) =>
      if s.pcs[t].seen >= 0 then
        // try_wait on the native semaphore
        if s.tokens > 0 then At(s, t, Idle).(tokens := s.tokens - 1, acquired := s.acquired + 1)
        else At(s, t, TimedOut)
      else if s.count == s.pcs[t].seen then
        At(s, t, Idle).(count := s.count + 1, expired := s.expired + 1)
      else
        At(s, t, TimedOut)
  }

  ghost predicate Trace(tr: seq<State>, es: seq<Event>) {
    && |tr| == |es| + 1
    && Init(tr[0])
    && forall i | 0 <= i < |es| :: Enabled(tr[i], es[i]) && tr[i + 1] == Apply(tr[i], es[i])
  }

  predicate IsWaiting(pc: Pc) {
    pc.Blocked? || pc.TimedBlocked? || pc.TimedOut? || pc.Reloaded?
  }

  /** Threads that have announced themselves in the count and neither returned nor retracted. */
  function Waiters(s: State): set<nat> { set t | t in s.pcs && IsWaiting(s.pcs[t]) }

  /** Threads that owe the native semaphore one post. */
  function Owing(s: State): set<nat> { set t | t in s.pcs && s.pcs[t] == Posting }

  function Pos(x: int): nat { if x > 0 then x else 0 }

  /** Waiters minus wake-ups already issued is exactly what the count announces. */
  ghost predicate Balanced(s: State) {
    |Waiters(s)| == s.tokens + |Owing(s)| + Pos(-s.count)
  }

  /** Every post is an acquisition, a token, an owed token, a positive count or was absorbed. */
  ghost predicate Conserved(s: State) {
    s.posted == s.acquired + s.tokens + |Owing(s)| + Pos(s.count) + s.absorbed
  }

  ghost predicate Inv(s: State) {
    && Balanced(s)
    && Conserved(s)
    && (s.kind == Counting ==> s.absorbed == 0)
    && (s.kind == AutoReset ==> s.count <= 1)
  }

  /** Moving one thread to another program counter changes the waiters by that thread only. */
  lemma MoveWaiter(s: State, t: nat, pc: Pc)
    requires t in s.pcs
    ensures |Waiters(At(s, t, pc))| ==
            |Waiters(s)| - (if IsWaiting(s.pcs[t]) then 1 else 0) + (if IsWaiting(pc) then 1 else 0)
  {
    var s' := At(s, t, pc);
    var w := Waiters(s) - {t};
    assert t in Waiters(s) <==> IsWaiting(s.pcs[t]);
    assert Waiters(s) == if IsWaiting(s.pcs[t]) then w + {t} else w;
    assert t in Waiters(s') <==> IsWaiting(pc);
    assert Waiters(s') == if IsWaiting(pc) then w + {t} else w;
  }

  lemma MoveOwing(s: State, t: nat, pc: Pc)
    requires t in s.pcs
    ensures |Owing(At(s, t, pc))| ==
            |Owing(s)| - (if s.pcs[t] == Posting then 1 else 0) + (if pc == Posting then 1 else 0)
  {
    var s' := At(s, t, pc);
    var o := Owing(s) - {t};
    assert t in Owing(s) <==> s.pcs[t] == Posting;
    assert Owing(s) == if s.pcs[t] == Posting then o + {t} else o;
    assert t in Owing(s') <==> pc == Posting;
    assert Owing(s') == if pc == Posting then o + {t} else o;
  }

  lemma InitHolds(s: State)
    requires Init(s)
    ensures Inv(s)
  {
    assert Waiters(s) == {} && Owing(s) == {};
  }

  lemma StepKeeps(s: State, e: Event)
    requires Inv(s) && Enabled(s, e)
    ensures Inv(Apply(s, e))
  {
    var s' := Apply(s, e);
    var pc := s'.pcs[e.t];
    MoveWaiter(s, e.t, pc);
    MoveOwing(s, e.t, pc);
    assert s'.pcs == At(s, e.t, pc).pcs;
    assert Waiters(s') == Waiters(At(s, e.t, pc)) && Owing(s') == Owing(At(s, e.t, pc));
  }

  /** Conservation and balance hold in every state of every interleaving, timeouts included. */
  lemma {:induction false} AlwaysConserved(tr: seq<State>, es: seq<Event>, i: nat)
    requires Trace(tr, es) && i < |tr|
    ensures Inv(tr[i])
  {
    if i == 0 {
      InitHolds(tr[0]);
    } else {
      AlwaysConserved(tr, es, i - 1);
      StepKeeps(tr[i - 1], es[i - 1]);
    }
  }

  lemma {:induction false} KindIsFixed(tr: seq<State>, es: seq<Event>, i: nat)
    requires Trace(tr, es) && i < |tr|
    ensures tr[i].kind == tr[0].kind
  {
    if i > 0 {
      KindIsFixed(tr, es, i - 1);
    }
  }

  /** A semaphore never lets more waits succeed than posts were made; an event counts to one at most. */
  lemma NeverOverAcquired(tr: seq<State>, es: seq<Event>, i: nat)
    requires Trace(tr, es) && i < |tr|
    ensures tr[i].acquired <= tr[i].posted
    ensures tr[0].kind == AutoReset ==> tr[i].count <= 1
  {
    AlwaysConserved(tr, es, i);
    KindIsFixed(tr, es, i);
  }

  /** No event can fire except a fresh call, a native timeout or one of its consequences. */
  ghost predicate Quiet(s: State) {
    forall t | t in s.pcs :: s.pcs[t] in {Idle, Blocked, TimedBlocked} &&
                             (s.pcs[t] != Idle ==> !Enabled(s, Wake(t)))
  }

  /**
   No wake-up is lost: if all threads are parked or idle and somebody is parked, then
   every post that was not absorbed has been consumed by a completed wait, and the count
   announces precisely the parked threads.
   */
  lemma NoLostWakeup(tr: seq<State>, es: seq<Event>, i: nat, t: nat)
    requires Trace(tr, es) && i < |tr|
    requires Quiet(tr[i]) && t in tr[i].pcs && tr[i].pcs[t] != Idle
    ensures tr[i].posted == tr[i].acquired + tr[i].absorbed
    ensures tr[i].count == -|Waiters(tr[i])| < 0
  {
    var s := tr[i];
    AlwaysConserved(tr, es, i);
    assert t in Waiters(s);
    assert Owing(s) == {};
    assert !Enabled(s, Wake(t));
    assert |Waiters(s)| > 0;
  }
}
