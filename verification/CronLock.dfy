/** Cron tasks under the lock table of one process (core/db_advisory_lock.go): callers of
    executeTask interleave at every mutex, tasks are registered again and removed meanwhile. */
module CronLock {

  /** A registered task object: registering the same name again makes a new one. */
  datatype Task = Task(name: string, serial: nat)

  /** Where a caller is inside executeTask: with a task looked up, with its lock taken, in its
      handler, leaving because the task was running already, and after the handler with the lock
      still held. */
  datatype Caller =
    | Idle
    | Picked(task: Task)
    | Locked(task: Task)
    | Handling(task: Task)
    | Skipping(task: Task)
    | Leaving(task: Task)

  /** The atomic steps; `c` is the number of a caller. */
  datatype Event =
    | Register(name: string)
    | Unregister(name: string)
    | Pick(c: nat, name: string)
    | TryLock(c: nat)
    | Mark(c: nat)
    | Finish(c: nat)
    | Unlock(c: nat)
    | ForceUnlock(name: string)

  /** `key` is the hash of a lock name; names may share one. */
  datatype State = State(tasks: map<string, Task>, locks: set<int>, running: set<Task>,
                         callers: map<nat, Caller>, serial: nat)

  type Hash = string -> int

  // ---- the steps --------------------------------------------------------------------------------------

  function At(s: State, c: nat): Caller {
    if c in s.callers then s.callers[c] else Idle
  }

  function Moved(s: State, c: nat, to: Caller): State {
    s.(callers := s.callers[c := to])
  }

  function KeyOf(key: Hash, task: Task): int {
    key("cron:" + task.name)
  }

  /** TryLock and Unlock on the lock table. */
  function Acquired(locks: set<int>, k: int): (set<int>, bool) {
    if k in locks then (locks, false) else (locks + {k}, true)
  }

  function Released(locks: set<int>, k: int): set<int> {
    locks - {k}
  }

  function Exec(key: Hash, s: State, e: Event): State {
    match e
    case Register(name) =>
      s.(tasks := s.tasks[name := Task(name, s.serial)], serial := s.serial + 1)
    case Unregister(name) => s.(tasks := s.tasks - {name})
    case Pick(c, name) =>
      if At(s, c).Idle? && name in s.tasks then Moved(s, c, Picked(s.tasks[name])) else s
    case TryLock(c) =>
      if !At(s, c).Picked? then s
      else
        var task := At(s, c).task;
        var (locks, acquired) := Acquired(s.locks, KeyOf(key, task));
        Moved(s.(locks := locks), c, if acquired then Locked(task) else Idle)
    case Mark(c) =>
      if !At(s, c).Locked? then s
      else
        var task := At(s, c).task;
        if task in s.running then Moved(s, c, Skipping(task))
        else Moved(s.(running := s.running + {task}), c, Handling(task))
    case Finish(c) =>
      if !At(s, c).Handling? then s
      else Moved(s.(running := s.running - {At(s, c).task}), c, Leaving(At(s, c).task))
    case Unlock(c) =>
      if !At(s, c).Leaving? && !At(s, c).Skipping? then s
      else Moved(s.(locks := Released(s.locks, KeyOf(key, At(s, c).task))), c, Idle)
    case ForceUnlock(name) => s.(locks := Released(s.locks, key("cron:" + name)))
  }

  function ExecAll(key: Hash, s: State, run: seq<Event>): State {
    if run == [] then s else Exec(key, ExecAll(key, s, run[..|run| - 1]), run[|run| - 1])
  }

  const START := State(map[], {}, {}, map[], 0)

  predicate OnlyExecuteTask(run: seq<Event>) {
    forall i :: 0 <= i < |run| ==> !run[i].ForceUnlock?
  }

  /** Every lock that is released by force is free at that moment, as IsLocked would tell. */
  predicate ForcesOnlyFreeLocks(key: Hash, run: seq<Event>) {
    run == [] ||
    var before, e := run[..|run| - 1], run[|run| - 1];
    && ForcesOnlyFreeLocks(key, before)
    && (e.ForceUnlock? ==> key("cron:" + e.name) !in ExecAll(key, START, before).locks)
  }

  // ---- invariants -------------------------------------------------------------------------------------

  predicate Holds(caller: Caller) {
    caller.Locked? || caller.Handling? || caller.Skipping? || caller.Leaving?
  }

  predicate HoldsKey(key: Hash, s: State, c: nat, k: int) {
    Holds(At(s, c)) && KeyOf(key, At(s, c).task) == k
  }

  predicate Handles(s: State, c: nat, task: Task) {
    At(s, c) == Handling(task)
  }

  /** A key is in the lock table exactly when a caller holds it, and no two do; a task is marked
      as running exactly when a caller is in its handler; nobody ever had to skip. */
  ghost predicate Inv(key: Hash, s: State) {
    && (forall k :: k in s.locks ==> exists c :: HoldsKey(key, s, c, k))
    && (forall c, k :: HoldsKey(key, s, c, k) ==> k in s.locks)
    && (forall c, d, k :: HoldsKey(key, s, c, k) && HoldsKey(key, s, d, k) ==> c == d)
    && (forall task :: task in s.running ==> exists c :: Handles(s, c, task))
    && (forall c, task :: Handles(s, c, task) ==> task in s.running)
    && (forall c :: !At(s, c).Skipping?)
  }

  lemma TryLockKeepsInv(key: Hash, s: State, c: nat)
    requires Inv(key, s) && At(s, c).Picked?
    ensures Inv(key, Exec(key, s, TryLock(c)))
  {
    var t := Exec(key, s, TryLock(c));
    var mine := KeyOf(key, At(s, c).task);
    assert forall d :: d != c ==> At(t, d) == At(s, d);
    assert forall d, k :: d != c ==> (HoldsKey(key, t, d, k) <==> HoldsKey(key, s, d, k));
    assert forall d, task :: Handles(t, d, task) <==> Handles(s, d, task);
    forall k | k in t.locks ensures exists d :: HoldsKey(key, t, d, k) {
      if k in s.locks {
        var d :| HoldsKey(key, s, d, k);
        assert d != c && HoldsKey(key, t, d, k);
      } else {
        assert HoldsKey(key, t, c, k);
      }
    }
  }

  /** A lock holder never finds its task running: the branch for that case is not taken. */
  lemma HolderFindsTaskIdle(key: Hash, s: State, c: nat)
    requires Inv(key, s) && At(s, c).Locked?
    ensures At(s, c).task !in s.running
  {
    var task := At(s, c).task;
    if task in s.running {
      var d :| Handles(s, d, task);
      assert HoldsKey(key, s, c, KeyOf(key, task)) && HoldsKey(key, s, d, KeyOf(key, task));
      assert false;
    }
  }

  /** A caller that stays a holder of the same lock. */
  lemma MoveKeepsKeys(key: Hash, s: State, t: State, c: nat)
    requires Inv(key, s) && t.locks == s.locks && Holds(At(s, c)) && Holds(At(t, c))
    requires At(t, c).task == At(s, c).task
    requires forall d :: d != c ==> At(t, d) == At(s, d)
    ensures forall k :: k in t.locks ==> exists d :: HoldsKey(key, t, d, k)
    ensures forall d, k :: HoldsKey(key, t, d, k) ==> k in t.locks
    ensures forall d, e, k :: HoldsKey(key, t, d, k) && HoldsKey(key, t, e, k) ==> d == e
  {
    assert forall d, k :: HoldsKey(key, t, d, k) <==> HoldsKey(key, s, d, k);
  }

  lemma MarkKeepsInv(key: Hash, s: State, c: nat)
    requires Inv(key, s) && At(s, c).Locked?
    ensures Inv(key, Exec(key, s, Mark(c)))
  {
    HolderFindsTaskIdle(key, s, c);
    var t := Exec(key, s, Mark(c));
    var mine := At(s, c).task;
    assert forall d :: d != c ==> At(t, d) == At(s, d);
    MoveKeepsKeys(key, s, t, c);
    assert Handles(t, c, mine);
    forall task | task in t.running ensures exists d :: Handles(t, d, task) {
      if task != mine {
        var d :| Handles(s, d, task);
        assert Handles(t, d, task);
      }
    }
    forall d, task | Handles(t, d, task) ensures task in t.running {
      assert d != c ==> Handles(s, d, task);
    }
  }

  lemma FinishKeepsInv(key: Hash, s: State, c: nat)
    requires Inv(key, s) && At(s, c).Handling?
    ensures Inv(key, Exec(key, s, Finish(c)))
  {
    var t := Exec(key, s, Finish(c));
    var mine := At(s, c).task;
    assert forall d :: d != c ==> At(t, d) == At(s, d);
    MoveKeepsKeys(key, s, t, c);
    forall task | task in t.running ensures exists d :: Handles(t, d, task) {
      var d :| Handles(s, d, task);
      assert d != c && Handles(t, d, task);
    }
    forall d, task | Handles(t, d, task) ensures task in t.running {
      assert d != c && Handles(s, d, task);
      assert HoldsKey(key, s, d, KeyOf(key, task)) && HoldsKey(key, s, c, KeyOf(key, mine));
    }
  }

  lemma UnlockKeepsInv(key: Hash, s: State, c: nat)
    requires Inv(key, s) && At(s, c).Leaving?
    ensures Inv(key, Exec(key, s, Unlock(c)))
  {
    var t := Exec(key, s, Unlock(c));
    var mine := KeyOf(key, At(s, c).task);
    assert HoldsKey(key, s, c, mine);
    assert forall d :: d != c ==> At(t, d) == At(s, d);
    assert forall d, k :: HoldsKey(key, t, d, k) <==> d != c && HoldsKey(key, s, d, k);
    assert forall d, task :: Handles(t, d, task) <==> Handles(s, d, task);
    forall k | k in t.locks ensures exists d :: HoldsKey(key, t, d, k) {
      var d :| HoldsKey(key, s, d, k);
      assert HoldsKey(key, t, d, k);
    }
  }

  lemma PickKeepsInv(key: Hash, s: State, c: nat, name: string)
    requires Inv(key, s) && At(s, c).Idle? && name in s.tasks
    ensures Inv(key, Exec(key, s, Pick(c, name)))
  {
    var t := Exec(key, s, Pick(c, name));
    assert forall d :: d != c ==> At(t, d) == At(s, d);
    assert forall d, k :: HoldsKey(key, t, d, k) <==> HoldsKey(key, s, d, k);
    assert forall d, task :: Handles(t, d, task) <==> Handles(s, d, task);
  }

  lemma RegistryKeepsInv(key: Hash, s: State, t: State)
    requires Inv(key, s)
    requires t.callers == s.callers && t.locks == s.locks && t.running == s.running
    ensures Inv(key, t)
  {
    assert forall d :: At(t, d) == At(s, d);
    assert forall d, k :: HoldsKey(key, t, d, k) <==> HoldsKey(key, s, d, k);
    assert forall d, task :: Handles(t, d, task) <==> Handles(s, d, task);
    forall k | k in t.locks ensures exists d :: HoldsKey(key, t, d, k) {
      var d :| HoldsKey(key, s, d, k);
      assert HoldsKey(key, t, d, k);
    }
    forall task | task in t.running ensures exists d :: Handles(t, d, task) {
      var d :| Handles(s, d, task);
      assert Handles(t, d, task);
    }
  }

  lemma StepKeepsInv(key: Hash, s: State, e: Event)
    requires Inv(key, s) && !e.ForceUnlock?
    ensures Inv(key, Exec(key, s, e))
  {
    match e
    case Register(_) => RegistryKeepsInv(key, s, Exec(key, s, e));
    case Unregister(_) => RegistryKeepsInv(key, s, Exec(key, s, e));
    case Pick(c, name) => if At(s, c).Idle? && name in s.tasks { PickKeepsInv(key, s, c, name); }
    case TryLock(c) => if At(s, c).Picked? { TryLockKeepsInv(key, s, c); }
    case Mark(c) => if At(s, c).Locked? { MarkKeepsInv(key, s, c); }
    case Finish(c) => if At(s, c).Handling? { FinishKeepsInv(key, s, c); }
    case Unlock(c) => if At(s, c).Leaving? { UnlockKeepsInv(key, s, c); }
  }

  /** Releasing a lock by force keeps the invariant exactly when the lock is free. */
  lemma ForceUnlockKeepsInvExactly(key: Hash, s: State, name: string)
    requires Inv(key, s)
    ensures Inv(key, Exec(key, s, ForceUnlock(name))) <==> key("cron:" + name) !in s.locks
  {
    var k := key("cron:" + name);
    var t := Exec(key, s, ForceUnlock(name));
    if k in s.locks {
      var c :| HoldsKey(key, s, c, k);
      assert At(t, c) == At(s, c) && HoldsKey(key, t, c, k);
    } else {
      assert t == s;
    }
  }

  /** Every task that was ever registered has its own number. */
  ghost predicate Numbered(s: State) {
    && (forall name :: name in s.tasks ==> s.tasks[name].serial < s.serial)
    && (forall task :: task in s.running ==> task.serial < s.serial)
    && (forall c :: !At(s, c).Idle? ==> At(s, c).task.serial < s.serial)
  }

  lemma StepKeepsNumbers(key: Hash, s: State, e: Event)
    requires Numbered(s)
    ensures Numbered(Exec(key, s, e))
  {
    var t := Exec(key, s, e);
    forall d | !At(t, d).Idle? ensures At(t, d).task.serial < t.serial {
      assert At(t, d) == At(s, d) || !At(s, d).Idle? || (e.Pick? && e.c == d);
    }
  }

  lemma {:induction false} Reachable(key: Hash, run: seq<Event>)
    requires ForcesOnlyFreeLocks(key, run)
    ensures var s := ExecAll(key, START, run); Inv(key, s) && Numbered(s)
  {
    if run != [] {
      hide Inv, Numbered, Exec;
      var s, e := ExecAll(key, START, run[..|run| - 1]), run[|run| - 1];
      Reachable(key, run[..|run| - 1]);
      StepKeepsNumbers(key, s, e);
      if e.ForceUnlock? {
        ForceUnlockKeepsInvExactly(key, s, e.name);
      } else {
        StepKeepsInv(key, s, e);
      }
    } else {
      assert START.locks == {} && START.running == {};
    }
  }

  // ---- what callers see -------------------------------------------------------------------------------

  /** In every interleaving at most one handler runs per task name, also when the task was
      registered again meanwhile, and for names that share a lock key. */
  lemma AtMostOneHandler(key: Hash, run: seq<Event>, c: nat, d: nat)
    requires ForcesOnlyFreeLocks(key, run)
    requires var s := ExecAll(key, START, run);
      && At(s, c).Handling? && At(s, d).Handling?
      && KeyOf(key, At(s, c).task) == KeyOf(key, At(s, d).task)
    ensures c == d
  {
    Reachable(key, run);
    var s := ExecAll(key, START, run);
    assert HoldsKey(key, s, c, KeyOf(key, At(s, c).task)) && HoldsKey(key, s, d, KeyOf(key, At(s, c).task));
  }

  /** A task marked as running has its lock held, so nobody who gets the lock finds it running. */
  lemma RunningTasksAreLocked(key: Hash, run: seq<Event>, task: Task)
    requires ForcesOnlyFreeLocks(key, run) && task in ExecAll(key, START, run).running
    ensures KeyOf(key, task) in ExecAll(key, START, run).locks
  {
    Reachable(key, run);
    var s := ExecAll(key, START, run);
    var c :| Handles(s, c, task);
    assert HoldsKey(key, s, c, KeyOf(key, task));
  }

  lemma NobodySkips(key: Hash, run: seq<Event>, c: nat)
    requires ForcesOnlyFreeLocks(key, run)
    ensures !At(ExecAll(key, START, run), c).Skipping?
  {
    Reachable(key, run);
  }

  /** No lock and no running mark is left behind: each belongs to a caller that is still inside
      executeTask, and goes with it. */
  lemma NothingLeaks(key: Hash, run: seq<Event>)
    requires ForcesOnlyFreeLocks(key, run)
    ensures
      var s := ExecAll(key, START, run);
      && (forall k :: k in s.locks ==> exists c :: HoldsKey(key, s, c, k))
      && (forall task :: task in s.running ==> exists c :: Handles(s, c, task))
  {
    Reachable(key, run);
  }

  // ---- locks released by force ------------------------------------------------------------------------

  ghost predicate Exclusive(key: Hash, s: State) {
    forall c, d :: At(s, c).Handling? && At(s, d).Handling? && KeyOf(key, At(s, c).task) == KeyOf(key, At(s, d).task)
                   ==> c == d
  }

  /** Whatever callers and the registry do from here on, no lock has two handlers at once. */
  ghost predicate StaysExclusive(key: Hash, s: State) {
    forall run :: OnlyExecuteTask(run) ==> Exclusive(key, ExecAll(key, s, run))
  }

  lemma {:induction false} RunOn(key: Hash, s: State, a: seq<Event>, b: seq<Event>)
    ensures ExecAll(key, s, a + b) == ExecAll(key, ExecAll(key, s, a), b)
  {
    if b == [] {
      assert a + b == a;
    } else {
      RunOn(key, s, a, b[..|b| - 1]);
      assert (a + b)[..|a + b| - 1] == a + b[..|b| - 1];
    }
  }

  lemma {:induction false} InvGoesOn(key: Hash, s: State, run: seq<Event>)
    requires Inv(key, s) && OnlyExecuteTask(run)
    ensures Inv(key, ExecAll(key, s, run))
  {
    if run != [] {
      hide Inv, Exec;
      InvGoesOn(key, s, run[..|run| - 1]);
      StepKeepsInv(key, ExecAll(key, s, run[..|run| - 1]), run[|run| - 1]);
    }
  }

  lemma InvIsExclusive(key: Hash, s: State)
    requires Inv(key, s)
    ensures Exclusive(key, s)
  {
    forall c, d | At(s, c).Handling? && At(s, d).Handling? && KeyOf(key, At(s, c).task) == KeyOf(key, At(s, d).task)
      ensures c == d
    {
      assert HoldsKey(key, s, c, KeyOf(key, At(s, c).task)) && HoldsKey(key, s, d, KeyOf(key, At(s, c).task));
    }
  }

  function Entering(name: string, c: nat): seq<Event> {
    [Register(name), Pick(c, name), TryLock(c), Mark(c)]
  }

  /** With the lock free, a task registered again goes into its handler. */
  lemma EntersHandler(key: Hash, s: State, name: string, c: nat)
    requires Numbered(s) && At(s, c).Idle? && key("cron:" + name) !in s.locks
    ensures
      var t, task := ExecAll(key, s, Entering(name, c)), Task(name, s.serial);
      && (forall d :: At(t, d) == if d == c then Handling(task) else At(s, d))
      && t.locks == s.locks + {key("cron:" + name)} && t.running == s.running + {task}
      && task !in s.running && Numbered(t)
  {
    hide ExecAll, Numbered;
    FourSteps(key, s, Register(name), Pick(c, name), TryLock(c), Mark(c));
    var s1 := Exec(key, s, Register(name));
    var s2 := Exec(key, s1, Pick(c, name));
    var s3 := Exec(key, s2, TryLock(c));
    StepKeepsNumbers(key, s, Register(name));
    StepKeepsNumbers(key, s1, Pick(c, name));
    StepKeepsNumbers(key, s2, TryLock(c));
    StepKeepsNumbers(key, s3, Mark(c));
    NewNumber(s, name);
  }

  lemma NewNumber(s: State, name: string)
    requires Numbered(s)
    ensures Task(name, s.serial) !in s.running
  {
  }

  lemma OneStep(key: Hash, s: State, e: Event)
    ensures ExecAll(key, s, [e]) == Exec(key, s, e)
  {
    assert [e][..0] == [];
  }

  lemma FourSteps(key: Hash, s: State, a: Event, b: Event, c: Event, d: Event)
    ensures ExecAll(key, s, [a, b, c, d]) == Exec(key, Exec(key, Exec(key, Exec(key, s, a), b), c), d)
  {
    hide Exec;
    assert [a, b, c, d][..3] == [a, b, c];
    assert [a, b, c][..2] == [a, b];
    assert [a, b][..1] == [a];
    OneStep(key, s, a);
    assert ExecAll(key, s, [a, b]) == Exec(key, Exec(key, s, a), b);
  }

  lemma {:induction false} FreshCaller(used: set<nat>) returns (c: nat)
    ensures forall d :: d in used ==> d < c
    decreases used
  {
    if used == {} {
      c := 0;
    } else {
      var d :| d in used;
      var b := FreshCaller(used - {d});
      assert used == {d} + (used - {d});
      c := if b <= d then d + 1 else b;
    }
  }

  lemma TwoHandlers(key: Hash, s: State, run: seq<Event>, c: nat, d: nat)
    requires OnlyExecuteTask(run)
    requires var t := ExecAll(key, s, run);
      && At(t, c).Handling? && At(t, d).Handling? && c != d
      && KeyOf(key, At(t, c).task) == KeyOf(key, At(t, d).task)
    ensures !StaysExclusive(key, s)
  {
  }

  /** Released under a caller in its handler, or about to enter it: a task registered again runs
      beside it. */
  lemma BreaksHandler(key: Hash, s: State, name: string, c: nat)
    requires Inv(key, s) && Numbered(s) && HoldsKey(key, s, c, key("cron:" + name)) && !At(s, c).Leaving?
    ensures !StaysExclusive(key, Exec(key, s, ForceUnlock(name)))
  {
    hide ExecAll, Numbered, StaysExclusive;
    var s0 := Exec(key, s, ForceUnlock(name));
    StepKeepsNumbers(key, s, ForceUnlock(name));
    var d := FreshCaller(s.callers.Keys);
    EntersHandler(key, s0, name, d);
    var t := ExecAll(key, s0, Entering(name, d));
    assert At(t, c) == At(s, c);
    if At(s, c).Handling? {
      TwoHandlers(key, s0, Entering(name, d), c, d);
    } else {
      HolderFindsTaskIdle(key, s, c);
      RunOn(key, s0, Entering(name, d), [Mark(c)]);
      OneStep(key, t, Mark(c));
      TwoHandlers(key, s0, Entering(name, d) + [Mark(c)], c, d);
    }
  }

  /** Released under a caller that is on its way out: it then releases the lock of the next. */
  lemma BreaksNext(key: Hash, s: State, name: string, c: nat)
    requires Numbered(s) && HoldsKey(key, s, c, key("cron:" + name)) && At(s, c).Leaving?
    ensures !StaysExclusive(key, Exec(key, s, ForceUnlock(name)))
  {
    hide ExecAll, Numbered, StaysExclusive;
    var s0 := Exec(key, s, ForceUnlock(name));
    StepKeepsNumbers(key, s, ForceUnlock(name));
    var d := FreshCaller(s.callers.Keys);
    EntersHandler(key, s0, name, d);
    var t := ExecAll(key, s0, Entering(name, d));
    assert At(t, c) == At(s, c);
    var u := Exec(key, t, Unlock(c));
    StepKeepsNumbers(key, t, Unlock(c));
    assert key("cron:" + name) !in u.locks;
    var e := FreshCaller(u.callers.Keys);
    EntersHandler(key, u, name, e);
    var v := ExecAll(key, u, Entering(name, e));
    RunOn(key, s0, Entering(name, d), [Unlock(c)]);
    OneStep(key, t, Unlock(c));
    RunOn(key, s0, Entering(name, d) + [Unlock(c)], Entering(name, e));
    assert At(v, d) == At(u, d) == At(t, d);
    TwoHandlers(key, s0, Entering(name, d) + [Unlock(c)] + Entering(name, e), d, e);
  }

  /** In any state reached with care for held locks: after releasing a lock by force exclusion
      holds for good exactly if the lock was free. Under any holder, wherever it is, a task that
      is registered again leads to two handlers at once. */
  lemma ForceUnlockBreaksExclusion(key: Hash, run: seq<Event>, name: string)
    requires ForcesOnlyFreeLocks(key, run)
    ensures
      var s := ExecAll(key, START, run);
      StaysExclusive(key, Exec(key, s, ForceUnlock(name))) <==> key("cron:" + name) !in s.locks
  {
    hide Exclusive, StaysExclusive, ExecAll, Numbered;
    var s := ExecAll(key, START, run);
    Reachable(key, run);
    if key("cron:" + name) in s.locks {
      var c :| HoldsKey(key, s, c, key("cron:" + name));
      if At(s, c).Leaving? {
        BreaksNext(key, s, name, c);
      } else {
        BreaksHandler(key, s, name, c);
      }
    } else {
      ForceUnlockKeepsInvExactly(key, s, name);
      InvLasts(key, Exec(key, s, ForceUnlock(name)));
    }
  }

  lemma InvLasts(key: Hash, s: State)
    requires Inv(key, s)
    ensures StaysExclusive(key, s)
  {
    hide Inv, Exclusive, ExecAll, OnlyExecuteTask;
    forall run | OnlyExecuteTask(run) ensures Exclusive(key, ExecAll(key, s, run)) {
      InvGoesOn(key, s, run);
      InvIsExclusive(key, ExecAll(key, s, run));
    }
  }

  /** Such a state is reached: one caller in its handler. */
  lemma HeldLockIsReached(key: Hash)
    ensures
      var run := Entering("t", 0);
      ForcesOnlyFreeLocks(key, run) && key("cron:" + "t") in ExecAll(key, START, run).locks
  {
    EntersHandler(key, START, "t", 0);
    NoForce(key, Entering("t", 0));
  }

  lemma {:induction false} NoForce(key: Hash, run: seq<Event>)
    requires OnlyExecuteTask(run)
    ensures ForcesOnlyFreeLocks(key, run)
  {
    if run != [] {
      NoForce(key, run[..|run| - 1]);
    }
  }

  // ---- in every run -----------------------------------------------------------------------------------

  /** A task is marked as running exactly while one caller is in its handler. */
  ghost predicate Alone(s: State) {
    && (forall c, d, task :: Handles(s, c, task) && Handles(s, d, task) ==> c == d)
    && (forall task :: task in s.running <==> exists c :: Handles(s, c, task))
  }

  lemma StepKeepsAlone(key: Hash, s: State, e: Event)
    requires Alone(s)
    ensures Alone(Exec(key, s, e))
  {
    var t := Exec(key, s, e);
    if (e.Mark? && At(s, e.c).Locked? && At(s, e.c).task !in s.running) || (e.Finish? && At(s, e.c).Handling?) {
      var mine := At(s, e.c).task;
      assert forall d :: d != e.c ==> At(t, d) == At(s, d);
      assert forall d, task :: d != e.c ==> (Handles(t, d, task) <==> Handles(s, d, task));
      assert e.Mark? ==> Handles(t, e.c, mine);
      assert e.Finish? ==> Handles(s, e.c, mine);
      forall task | task != mine ensures task in t.running <==> exists c :: Handles(t, c, task) {
        if task in s.running {
          var c :| Handles(s, c, task);
          assert Handles(t, c, task);
        }
      }
    } else {
      assert forall d, task :: Handles(t, d, task) <==> Handles(s, d, task);
      assert t.running == s.running;
    }
  }

  /** In every run at all, locks released by force included, no task has two handlers at once:
      only a task registered again can run beside the old one. */
  lemma {:induction false} OneHandlerPerTask(key: Hash, run: seq<Event>)
    ensures Alone(ExecAll(key, START, run))
  {
    if run != [] {
      hide Alone, Exec;
      OneHandlerPerTask(key, run[..|run| - 1]);
      StepKeepsAlone(key, ExecAll(key, START, run[..|run| - 1]), run[|run| - 1]);
    } else {
      assert forall c, task :: !Handles(START, c, task);
    }
  }

  predicate AboutTask(e: Event, name: string) {
    (e.Register? && e.name == name) || (e.Unregister? && e.name == name)
  }

  lemma StepRegisters(key: Hash, s: State, e: Event, name: string)
    ensures
      var t := Exec(key, s, e);
      && (name in t.tasks <==> e == Register(name) || (name in s.tasks && !AboutTask(e, name)))
      && (name in t.tasks && e != Register(name) ==> t.tasks[name] == s.tasks[name])
      && (e == Register(name) ==> t.tasks[name].name == name)
  {
  }

  /** The last event about the name is the registration at position i. */
  predicate RegisteredLast(run: seq<Event>, name: string, i: nat) {
    i < |run| && run[i] == Register(name) && forall j :: i < j < |run| ==> !AboutTask(run[j], name)
  }

  lemma RegisteredStep(run: seq<Event>, e: Event, name: string)
    ensures (exists i: nat :: RegisteredLast(run + [e], name, i)) <==>
            e == Register(name) || (!AboutTask(e, name) && exists i: nat :: RegisteredLast(run, name, i))
  {
    var longer := run + [e];
    if e == Register(name) {
      assert RegisteredLast(longer, name, |run|);
    } else if !AboutTask(e, name) && exists i: nat :: RegisteredLast(run, name, i) {
      var i: nat :| RegisteredLast(run, name, i);
      assert RegisteredLast(longer, name, i);
    } else if exists i: nat :: RegisteredLast(longer, name, i) {
      var i: nat :| RegisteredLast(longer, name, i);
      assert longer[|run|] == e && !AboutTask(e, name);
      assert forall j :: 0 <= j < |run| ==> longer[j] == run[j];
      assert RegisteredLast(run, name, i);
    }
  }

  /** A name can be picked exactly if what was last said about it was a registration. */
  lemma {:induction false} LastRegistrationDecides(key: Hash, run: seq<Event>, name: string)
    ensures
      var s := ExecAll(key, START, run);
      && (name in s.tasks <==> exists i: nat :: RegisteredLast(run, name, i))
      && (name in s.tasks ==> s.tasks[name].name == name)
  {
    if run != [] {
      hide Exec, RegisteredLast;
      var init, e := run[..|run| - 1], run[|run| - 1];
      LastRegistrationDecides(key, init, name);
      StepRegisters(key, ExecAll(key, START, init), e, name);
      RegisteredStep(init, e, name);
      assert run == init + [e];
    }
  }

  /** Only an idle caller and a registered name make a call, which then tries for the lock. */
  lemma CallsTryForTheLock(key: Hash, s: State, c: nat, name: string)
    requires At(s, c).Idle?
    ensures
      var t := Exec(key, s, Pick(c, name));
      var u := Exec(key, t, TryLock(c));
      && (name !in s.tasks ==> t == s)
      && (name in s.tasks ==>
            var k := KeyOf(key, s.tasks[name]);
            && (At(u, c) == if k in s.locks then Idle else Locked(s.tasks[name]))
            && u.locks == s.locks + {k} && u.running == s.running)
  {
    assert name in s.tasks && KeyOf(key, s.tasks[name]) in s.locks ==>
        s.locks + {KeyOf(key, s.tasks[name])} == s.locks;
  }

  /** With the lock taken, a call runs the handler if the task is idle, leaves at once if it is
      not, and in both cases gives the lock back and leaves the task as it found it. */
  lemma CallsEnd(key: Hash, s: State, c: nat)
    requires At(s, c).Locked?
    ensures
      var task := At(s, c).task;
      var t := Exec(key, s, Mark(c));
      var u := Exec(key, t, Finish(c));
      var v := Exec(key, u, Unlock(c));
      && (At(t, c) == Handling(task) <==> task !in s.running)
      && At(v, c).Idle? && v.locks == s.locks - {KeyOf(key, task)} && v.running == s.running
      && (forall d :: d != c ==> At(v, d) == At(s, d)) && v.tasks == s.tasks
  {
  }

  // ---- the code ---------------------------------------------------------------------------------------

  /** The lock table of the process. */
  class AdvisoryLockManager {
    const key: Hash
    var localLocks: map<int, bool>

    constructor (key: Hash)
      ensures this.key == key && Valid() && Held() == {}
    {
      this.key := key;
      localLocks := map[];
    }

    ghost predicate Valid()
      reads this
    {
      forall k :: k in localLocks ==> localLocks[k]
    }

    ghost function Held(): set<int>
      reads this
    {
      set k | k in localLocks && localLocks[k]
    }

    method TryLock(name: string) returns (acquired: bool)
      requires Valid()
      modifies this
      ensures Valid() && (Held(), acquired) == Acquired(old(Held()), key(name))
    {
      var k := key(name);
      if k in localLocks && localLocks[k] {
        return false;
      }
      localLocks := localLocks[k := true];
      assert Held() == old(Held()) + {k};
      return true;
    }

    method Unlock(name: string)
      requires Valid()
      modifies this
      ensures Valid() && Held() == Released(old(Held()), key(name))
    {
      localLocks := localLocks - {key(name)};
    }

    method IsLocked(name: string) returns (locked: bool)
      requires Valid()
      ensures locked <==> key(name) in Held()
    {
      return key(name) in localLocks && localLocks[key(name)];
    }
  }

  class CronTask {
    const name: string
    var running: bool
    var lastErr: bool

    constructor (name: string)
      ensures this.name == name && !running && !lastErr
    {
      this.name := name;
      running, lastErr := false, false;
    }

    method Start() returns (started: bool)
      modifies `running
      ensures running && (started <==> !old(running))
    {
      started := !running;
      running := true;
    }

    method Stop()
      modifies `running
      ensures !running
    {
      running := false;
    }
  }

  /** One call of executeTask that no other caller interrupts: the handler runs exactly when the
      lock is free and the task idle, and the lock table is left as it was found. */
  method ExecuteTask(manager: AdvisoryLockManager, task: CronTask, handlerFails: bool) returns (ran: bool, ok: bool)
    requires manager.Valid()
    modifies manager, task
    ensures manager.Valid() && manager.Held() == old(manager.Held())
    ensures ran <==> manager.key("cron:" + task.name) !in old(manager.Held()) && !old(task.running)
    ensures ok <==> !ran || !handlerFails
    ensures task.running == (old(task.running) && !ran)
    ensures task.lastErr == (old(task.lastErr) || (ran && handlerFails))
  {
    var acquired := manager.TryLock("cron:" + task.name);
    if !acquired {
      return false, true;
    }
    ran := task.Start();
    ok := true;
    if ran {
      if handlerFails {
        task.lastErr := true;
        ok := false;
      }
      task.Stop();
    }
    manager.Unlock("cron:" + task.name);
  }
}
