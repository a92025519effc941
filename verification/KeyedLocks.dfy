/**
 A lock per key, handed out by LoadOrStore: the mount manager's keyMutex, which never deletes a
 lock, and the driver's KeyMutex, which adds RemoveMutex.  A thread first gets the lock of a
 key, then blocks on it, then holds it.  RemoveMutex and the deferred unlock are two actions:
 between them the thread still holds a lock that is no longer registered, and does nothing on
 behalf of the key but return.
 */
module KeyedLocks {
  datatype Pc = Idle | Got(key: string, lock: nat) | Working(key: string, lock: nat) | Leaving(key: string, lock: nat)

  /** `held` maps a lock to the thread holding it; `next` is the next fresh lock. */
  datatype State = State(registry: map<string, nat>, next: nat, held: map<nat, nat>, threads: map<nat, Pc>)

  datatype Action = Get(thread: nat, key: string) | Acquire(thread: nat) | Remove(thread: nat) | Release(thread: nat)

  function PcOf(s: State, t: nat): Pc {
    if t in s.threads then s.threads[t] else Idle
  }

  predicate Holds(pc: Pc) {
    pc.Working? || pc.Leaving?
  }

  predicate Enabled(s: State, a: Action) {
    match a
    case Get(t, _) => PcOf(s, t).Idle?
    case Acquire(t) => PcOf(s, t).Got? && PcOf(s, t).lock !in s.held
    case Remove(t) => PcOf(s, t).Working?
    case Release(t) => Holds(PcOf(s, t))
  }

  function Apply(s: State, a: Action): State
    requires Enabled(s, a)
  {
    var t := a.thread;
    match a
    case Get(_, k) =>
      if k in s.registry then s.(threads := s.threads[t := Got(k, s.registry[k])])
      else s.(registry := s.registry[k := s.next], next := s.next + 1, threads := s.threads[t := Got(k, s.next)])
    case Acquire(_) =>
      var pc := PcOf(s, t);
      s.(held := s.held[pc.lock := t], threads := s.threads[t := Working(pc.key, pc.lock)])
    case Remove(_) =>
      var pc := PcOf(s, t);
      s.(registry := s.registry - {pc.key}, threads := s.threads[t := Leaving(pc.key, pc.lock)])
    case Release(_) => s.(held := s.held - {PcOf(s, t).lock}, threads := s.threads[t := Idle])
  }

  predicate Executable(s: State, run: seq<Action>)
    decreases |run|
  {
    run == [] || (Enabled(s, run[0]) && Executable(Apply(s, run[0]), run[1..]))
  }

  function Exec(s: State, run: seq<Action>): State
    requires Executable(s, run)
    decreases |run|
  {
    if run == [] then s else Exec(Apply(s, run[0]), run[1..])
  }

  const EMPTY := State(map[], 0, map[], map[])

  /** A run of the mount manager's keyMutex: no lock is ever deleted. */
  predicate NoRemoval(run: seq<Action>) {
    forall a | a in run :: !a.Remove?
  }

  /** Two threads are between the lock and the unlock of one key. */
  predicate Overlap(s: State, t: nat, u: nat) {
    t != u && Holds(PcOf(s, t)) && Holds(PcOf(s, u)) && PcOf(s, t).key == PcOf(s, u).key
  }

  /** Two threads work under the lock of one key. */
  predicate Collision(s: State, t: nat, u: nat) {
    t != u && PcOf(s, t).Working? && PcOf(s, u).Working? && PcOf(s, t).key == PcOf(s, u).key
  }

  /** Some other thread has the lock that t holds and has not acquired it yet. */
  predicate HasWaiter(s: State, t: nat) {
    Holds(PcOf(s, t)) && exists u | u in s.threads :: u != t && s.threads[u].Got? && s.threads[u].key == PcOf(s, t).key
  }

  /** No lock is deleted while another thread waits on it. */
  predicate WaiterFree(s: State, run: seq<Action>)
    requires Executable(s, run)
    decreases |run|
  {
    run == [] || ((run[0].Remove? ==> !HasWaiter(s, run[0].thread)) && WaiterFree(Apply(s, run[0]), run[1..]))
  }

  // ----- exclusion -----

  /** Whoever waits or works has the registered lock of its key, and a held lock has one holder. */
  predicate Inv(s: State) {
    && (forall k | k in s.registry :: s.registry[k] < s.next)
    && (forall l | l in s.held :: l < s.next)
    && (forall t | t in s.threads && (s.threads[t].Got? || s.threads[t].Working?) ::
          s.threads[t].key in s.registry && s.registry[s.threads[t].key] == s.threads[t].lock)
    && (forall t | t in s.threads && Holds(s.threads[t]) ::
          s.threads[t].lock in s.held && s.held[s.threads[t].lock] == t)
  }

  lemma RemovePreservesInv(s: State, t: nat)
    requires Inv(s) && Enabled(s, Remove(t)) && !HasWaiter(s, t)
    ensures Inv(Apply(s, Remove(t)))
  {
    forall u | u in s.threads && u != t && (s.threads[u].Got? || s.threads[u].Working?)
      ensures s.threads[u].key != PcOf(s, t).key
    {
      if s.threads[u].Working? {
        assert s.held[s.threads[u].lock] == u && s.held[PcOf(s, t).lock] == t;
      }
    }
  }

  lemma StepPreservesInv(s: State, a: Action)
    requires Inv(s) && Enabled(s, a) && (a.Remove? ==> !HasWaiter(s, a.thread))
    ensures Inv(Apply(s, a))
  {
    if a.Remove? {
      RemovePreservesInv(s, a.thread);
    } else if a.Release? {
      forall t | t in s.threads && Holds(s.threads[t]) && t != a.thread
        ensures s.threads[t].lock != PcOf(s, a.thread).lock
      {
        assert s.held[s.threads[t].lock] == t;
      }
    }
  }

  lemma {:induction false} ExecPreservesInv(s: State, run: seq<Action>)
    requires Inv(s) && Executable(s, run) && WaiterFree(s, run)
    ensures Inv(Exec(s, run))
    decreases |run|
  {
    if run != [] {
      StepPreservesInv(s, run[0]);
      ExecPreservesInv(Apply(s, run[0]), run[1..]);
    }
  }

  lemma InvExcludes(s: State, t: nat, u: nat)
    requires Inv(s)
    ensures !Collision(s, t, u)
  {
  }

  /** Over every run: as long as no lock is deleted under a waiter, no two threads work on one key. */
  lemma WaiterFreeRunsExclude(run: seq<Action>, t: nat, u: nat)
    requires Executable(EMPTY, run) && WaiterFree(EMPTY, run)
    ensures !Collision(Exec(EMPTY, run), t, u)
  {
    ExecPreservesInv(EMPTY, run);
    InvExcludes(Exec(EMPTY, run), t, u);
  }

  /** A key nobody holds can be locked and unlocked at once. */
  lemma FreeKeyIsLocked(s: State, t: nat, key: string) returns (x: State)
    requires Inv(s) && PcOf(s, t).Idle? && (key in s.registry ==> s.registry[key] !in s.held)
    ensures Enabled(s, Get(t, key)) && Enabled(Apply(s, Get(t, key)), Acquire(t)) && x == Apply(Apply(s, Get(t, key)), Acquire(t))
    ensures PcOf(x, t).Working? && PcOf(x, t).key == key && Enabled(x, Release(t))
    ensures PcOf(Apply(x, Release(t)), t).Idle? && PcOf(x, t).lock !in Apply(x, Release(t)).held
  {
    x := Apply(Apply(s, Get(t, key)), Acquire(t));
  }

  /** Whoever asks for a key that another thread works under waits for that very thread, and is let in after its unlock. */
  lemma LockIsHandedOver(s: State, t: nat, u: nat) returns (waiting: State, x: State)
    requires Inv(s) && PcOf(s, t).Working? && PcOf(s, u).Idle?
    ensures Enabled(s, Get(u, PcOf(s, t).key)) && waiting == Apply(s, Get(u, PcOf(s, t).key))
    ensures PcOf(waiting, u).Got? && !Enabled(waiting, Acquire(u)) && Enabled(waiting, Release(t)) && x == Apply(waiting, Release(t))
    ensures Enabled(x, Acquire(u)) && PcOf(Apply(x, Acquire(u)), u) == PcOf(s, t)
  {
    waiting := Apply(s, Get(u, PcOf(s, t).key));
    x := Apply(waiting, Release(t));
  }

  predicate NobodyLeaving(s: State) {
    forall t | t in s.threads :: !s.threads[t].Leaving?
  }

  lemma {:induction false} ExecWithoutRemoval(s: State, run: seq<Action>)
    requires NobodyLeaving(s) && Executable(s, run) && NoRemoval(run)
    ensures NobodyLeaving(Exec(s, run)) && WaiterFree(s, run)
    decreases |run|
  {
    if run != [] {
      ExecWithoutRemoval(Apply(s, run[0]), run[1..]);
    }
  }

  /** The locks of the mount manager exclude between lock and unlock: they are never deleted. */
  lemma NeverDeletedLocksExclude(run: seq<Action>, t: nat, u: nat)
    requires Executable(EMPTY, run) && NoRemoval(run)
    ensures !Overlap(Exec(EMPTY, run), t, u)
  {
    ExecWithoutRemoval(EMPTY, run);
    WaiterFreeRunsExclude(run, t, u);
    assert NobodyLeaving(Exec(EMPTY, run));
  }

  // ----- the driver's RemoveMutex -----

  ghost predicate CanCollide(s: State) {
    exists run: seq<Action>, t: nat, u: nat :: Executable(s, run) && WaiterFree(s, run) && Collision(Exec(s, run), t, u)
  }

  /** A number above every element of a finite set. */
  lemma {:induction false} BoundAbove(keys: set<nat>) returns (bound: nat)
    ensures forall k | k in keys :: k < bound
    decreases |keys|
  {
    if keys == {} {
      bound := 0;
    } else {
      var k :| k in keys;
      var rest := BoundAbove(keys - {k});
      bound := if rest <= k then k + 1 else rest;
      forall j | j in keys ensures j < bound {
        assert j == k || j in keys - {k};
      }
    }
  }

  lemma ExecThree(s: State, a: Action, b: Action, c: Action)
    requires !a.Remove? && !b.Remove? && !c.Remove?
    requires Enabled(s, a) && Enabled(Apply(s, a), b) && Enabled(Apply(Apply(s, a), b), c)
    ensures Executable(s, [a, b, c]) && WaiterFree(s, [a, b, c])
    ensures Exec(s, [a, b, c]) == Apply(Apply(Apply(s, a), b), c)
  {
    var s1, s2 := Apply(s, a), Apply(Apply(s, a), b);
    assert [c][1..] == [] && [b, c][1..] == [c] && [a, b, c][1..] == [b, c];
    assert Executable(s2, [c]) && WaiterFree(s2, [c]) && Exec(s2, [c]) == Apply(s2, c);
    assert Executable(s1, [b, c]) && WaiterFree(s1, [b, c]) && Exec(s1, [b, c]) == Apply(s2, c);
  }

  /**
   Deleting a held lock always lets a newcomer in before the unlock: whoever asks for the key next
   gets a fresh lock and holds it beside the thread that is leaving.
   */
  lemma NewcomerOverlapsRemover(s: State, t: nat) returns (w: nat, x: State)
    requires Inv(s) && PcOf(s, t).Working?
    ensures var k, removed := PcOf(s, t).key, Apply(s, Remove(t));
            && Enabled(removed, Get(w, k)) && Enabled(Apply(removed, Get(w, k)), Acquire(w))
            && x == Apply(Apply(removed, Get(w, k)), Acquire(w))
    ensures Overlap(x, t, w) && PcOf(x, t).Leaving? && PcOf(x, w).Working?
  {
    var k, removed := PcOf(s, t).key, Apply(s, Remove(t));
    w := BoundAbove(removed.threads.Keys);
    var got := Apply(removed, Get(w, k));
    assert got.registry[k] == s.next && s.next !in got.held;
    x := Apply(got, Acquire(w));
  }

  /** The remover leaves, the waiter enters with the deleted lock, a newcomer with the fresh one. */
  lemma WaiterCollides(s: State, t: nat, u: nat)
    requires Inv(s) && PcOf(s, t).Working? && u != t
    requires PcOf(s, u) == Got(PcOf(s, t).key, PcOf(s, t).lock)
    ensures CanCollide(Apply(s, Remove(t)))
  {
    var k := PcOf(s, t).key;
    var s1 := Apply(s, Remove(t));
    var s2 := Apply(s1, Release(t));
    var s3 := Apply(s2, Acquire(u));
    var w := BoundAbove(s3.threads.Keys);
    var s4 := Apply(s3, Get(w, k));
    assert s4.registry[k] == s.next && s.next !in s4.held;
    ExecThree(s2, Acquire(u), Get(w, k), Acquire(w));
    var run := [Release(t)] + [Acquire(u), Get(w, k), Acquire(w)];
    assert run[1..] == [Acquire(u), Get(w, k), Acquire(w)];
    assert Executable(s1, run) && WaiterFree(s1, run);
    assert Collision(Exec(s1, run), u, w);
  }

  /**
   When deleting a lock is safe: two threads can later work on the key together, before or after the
   unlock, if and only if another thread was already waiting on the deleted lock.
   */
  lemma RemovalCollidesIffWaiter(s: State, t: nat)
    requires Inv(s) && PcOf(s, t).Working?
    ensures CanCollide(Apply(s, Remove(t))) <==> HasWaiter(s, t)
  {
    var s1 := Apply(s, Remove(t));
    if HasWaiter(s, t) {
      var u :| u in s.threads && u != t && s.threads[u].Got? && s.threads[u].key == PcOf(s, t).key;
      WaiterCollides(s, t, u);
    } else {
      RemovePreservesInv(s, t);
      forall run: seq<Action>, u: nat, v: nat | Executable(s1, run) && WaiterFree(s1, run)
        ensures !Collision(Exec(s1, run), u, v)
      {
        ExecPreservesInv(s1, run);
        InvExcludes(Exec(s1, run), u, v);
      }
    }
  }
}
