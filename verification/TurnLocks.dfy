/** The per-key locks of book learning: a table that holds its locks weakly.  An entry disappears, at any moment, once
    no task refers to its lock, and a lock asked for again is then a new one. */
module TurnLocks {
  /** The running event loop and the lock key. */
  datatype Key = Key(eventLoop: nat, name: string)

  /** A lock's identity; locks are never reused. */
  type LockId = nat

  /** A task refers to the lock it got from its look-up until it leaves the locked block. */
  datatype Task = Waiting(key: Key, lock: LockId) | Inside(key: Key, lock: LockId)

  type TaskId = nat

  datatype World = World(table: map<Key, LockId>, held: set<LockId>, tasks: map<TaskId, Task>, created: nat)

  const EMPTY: World := World(map[], {}, map[], 0)

  /** Looking a lock up, creating and storing it if need be, is one step: there is no await in between. */
  datatype Step =
    | LookUp(id: TaskId, key: Key) | Acquire(id: TaskId) | Leave(id: TaskId) | Abandon(id: TaskId) | Collect(key: Key)

  predicate Referred(s: World, lock: LockId) {
    exists id :: id in s.tasks && s.tasks[id].lock == lock
  }

  predicate Enabled(s: World, step: Step) {
    match step
    case LookUp(id, key) => id !in s.tasks
    case Acquire(id) => id in s.tasks && s.tasks[id].Waiting? && s.tasks[id].lock !in s.held
    case Leave(id) => id in s.tasks && s.tasks[id].Inside?
    case Abandon(id) => id in s.tasks && s.tasks[id].Waiting?                // cancelled while awaiting the lock
    case Collect(key) => key in s.table && !Referred(s, s.table[key])        // the garbage collector drops an entry
  }

  function Apply(s: World, step: Step): World
    requires Enabled(s, step)
  {
    match step
    case LookUp(id, key) =>
      if key in s.table then s.(tasks := s.tasks[id := Waiting(key, s.table[key])])
      else World(s.table[key := s.created], s.held, s.tasks[id := Waiting(key, s.created)], s.created + 1)
    case Acquire(id) =>
      s.(held := s.held + {s.tasks[id].lock}, tasks := s.tasks[id := Inside(s.tasks[id].key, s.tasks[id].lock)])
    case Leave(id) => s.(held := s.held - {s.tasks[id].lock}, tasks := s.tasks - {id})
    case Abandon(id) => s.(tasks := s.tasks - {id})
    case Collect(key) => s.(table := s.table - {key})
  }

  predicate Allowed(s: World, steps: seq<Step>)
    decreases |steps|
  {
    steps == [] || (Enabled(s, steps[0]) && Allowed(Apply(s, steps[0]), steps[1..]))
  }

  function After(s: World, steps: seq<Step>): World
    requires Allowed(s, steps)
    decreases |steps|
  {
    if steps == [] then s else After(Apply(s, steps[0]), steps[1..])
  }

  /** A task's lock is the one the table has under the task's key; different keys have different locks. */
  ghost predicate TableFits(s: World) {
    && (forall id :: id in s.tasks ==> s.tasks[id].key in s.table && s.table[s.tasks[id].key] == s.tasks[id].lock)
    && (forall k, l :: k in s.table && l in s.table && k != l ==> s.table[k] != s.table[l])
    && (forall k :: k in s.table ==> s.table[k] < s.created)
  }

  ghost predicate HasHolder(s: World, lock: LockId) {
    exists id :: id in s.tasks && s.tasks[id] == Inside(s.tasks[id].key, lock)
  }

  /** A lock is held exactly while one task is inside. */
  ghost predicate HeldFits(s: World) {
    && (forall id :: id in s.tasks && s.tasks[id].Inside? ==> s.tasks[id].lock in s.held)
    && (forall lock :: lock in s.held ==> HasHolder(s, lock))
    && (forall i, j :: i in s.tasks && j in s.tasks && i != j && s.tasks[i].Inside? && s.tasks[j].Inside? ==>
          s.tasks[i].lock != s.tasks[j].lock)
  }

  ghost predicate Inv(s: World) {
    TableFits(s) && HeldFits(s)
  }

  lemma StepKeepsTable(s: World, step: Step)
    requires TableFits(s) && Enabled(s, step)
    ensures TableFits(Apply(s, step))
  {}

  lemma StepKeepsHolders(s: World, step: Step, lock: LockId)
    requires HeldFits(s) && Enabled(s, step) && lock in Apply(s, step).held
    ensures HasHolder(Apply(s, step), lock)
  {
    var t := Apply(s, step);
    if lock in s.held {
      assert HasHolder(s, lock);
      var id :| id in s.tasks && s.tasks[id] == Inside(s.tasks[id].key, lock);
      assert id in t.tasks && t.tasks[id] == s.tasks[id];
    } else {
      assert t.tasks[step.id] == Inside(t.tasks[step.id].key, lock);
    }
  }

  lemma StepKeepsHeld(s: World, step: Step)
    requires HeldFits(s) && Enabled(s, step)
    ensures HeldFits(Apply(s, step))
  {
    forall lock | lock in Apply(s, step).held
      ensures HasHolder(Apply(s, step), lock)
    {
      StepKeepsHolders(s, step, lock);
    }
  }

  lemma {:induction false} RunKeepsInv(s: World, steps: seq<Step>)
    requires Inv(s) && Allowed(s, steps)
    ensures Inv(After(s, steps))
    decreases |steps|
  {
    if steps != [] {
      StepKeepsTable(s, steps[0]);
      StepKeepsHeld(s, steps[0]);
      RunKeepsInv(Apply(s, steps[0]), steps[1..]);
    }
  }

  /** Mutual exclusion although entries come and go: two tasks with one event loop and key are never both inside. */
  lemma NeverTwoInside(steps: seq<Step>, i: TaskId, j: TaskId)
    requires Allowed(EMPTY, steps) && i != j
    ensures var t := After(EMPTY, steps);
      !(i in t.tasks && j in t.tasks && t.tasks[i].Inside? && t.tasks[j].Inside? && t.tasks[i].key == t.tasks[j].key)
  {
    RunKeepsInv(EMPTY, steps);
  }

  /** A waiting task can go in exactly when no task with its own key is inside. */
  lemma BlockedOnlyByTheSameKey(steps: seq<Step>, i: TaskId)
    requires Allowed(EMPTY, steps)
    ensures var t := After(EMPTY, steps);
      i in t.tasks && t.tasks[i].Waiting? ==>
        (Enabled(t, Acquire(i)) <==>
          forall j :: j in t.tasks && t.tasks[j].Inside? ==> t.tasks[j].key != t.tasks[i].key)
  {
    RunKeepsInv(EMPTY, steps);
    var t := After(EMPTY, steps);
    if i in t.tasks && t.tasks[i].Waiting? && t.tasks[i].lock in t.held {
      assert HasHolder(t, t.tasks[i].lock);
      var j :| j in t.tasks && t.tasks[j] == Inside(t.tasks[j].key, t.tasks[i].lock);
      assert t.table[t.tasks[j].key] == t.table[t.tasks[i].key];
    }
  }

  /** An entry can be collected exactly when no task uses its key. */
  lemma EntriesLastAsLongAsTheyAreUsed(steps: seq<Step>, key: Key)
    requires Allowed(EMPTY, steps)
    ensures var t := After(EMPTY, steps);
      Enabled(t, Collect(key)) <==> key in t.table && forall id :: id in t.tasks ==> t.tasks[id].key != key
  {
    RunKeepsInv(EMPTY, steps);
    var t := After(EMPTY, steps);
    if key in t.table && Referred(t, t.table[key]) {
      var id :| id in t.tasks && t.tasks[id].lock == t.table[key];
      assert t.tasks[id].key == key;
    }
  }

  /** The guard on collection is needed: with the entry of a lock in use dropped, a second task goes inside too. */
  lemma CollectingTooEarlyBreaksIt(key: Key)
    ensures var used := After(EMPTY, [LookUp(0, key), Acquire(0)]);
      var dropped := used.(table := map[]);
      Allowed(EMPTY, [LookUp(0, key), Acquire(0)]) && Allowed(dropped, [LookUp(1, key), Acquire(1)])
      && After(dropped, [LookUp(1, key), Acquire(1)]).tasks == map[0 := Inside(key, 0), 1 := Inside(key, 1)]
  {
    var s1 := World(map[key := 0], {}, map[0 := Waiting(key, 0)], 1);
    assert Apply(EMPTY, LookUp(0, key)) == s1;
    var used := World(map[key := 0], {0}, map[0 := Inside(key, 0)], 1);
    assert Apply(s1, Acquire(0)) == used;
    assert [LookUp(0, key), Acquire(0)][1..] == [Acquire(0)] && [Acquire(0)][1..] == [];
    assert After(s1, [Acquire(0)]) == After(used, []) == used;
    assert After(EMPTY, [LookUp(0, key), Acquire(0)]) == used;
    var dropped := used.(table := map[]);
    var s3 := World(map[key := 1], {0}, map[0 := Inside(key, 0), 1 := Waiting(key, 1)], 2);
    assert Apply(dropped, LookUp(1, key)) == s3;
    var s4 := World(map[key := 1], {0, 1}, map[0 := Inside(key, 0), 1 := Inside(key, 1)], 2);
    assert Apply(s3, Acquire(1)) == s4;
    assert [LookUp(1, key), Acquire(1)][1..] == [Acquire(1)] && [Acquire(1)][1..] == [];
    assert After(s3, [Acquire(1)]) == After(s4, []) == s4;
  }
}
