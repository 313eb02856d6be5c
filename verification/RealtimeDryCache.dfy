/** Realtime messages of record deletes (apis/realtime.go, core/db.go): the messages are made
    before the delete, kept in each client's store under a key of the record, and sent or
    discarded when the delete is known to have succeeded or failed. */
module RealtimeDryCache {
  import opened Wrappers
  import opened DryCacheKeys
  import Cache = CollectionsCache

  type Message = string

  /** How a delete ends: with an error before its messages were made, with one after, or well. */
  datatype Outcome = FailBefore | FailAfter | Done

  /** A delete runs `before` in the hooks ahead of the one that makes the messages and `inside` in
      the rest, in its own transaction when `wrapped` (cascades). `messages[c]` is what client
      number c may see of the record. They are stored under `key`; `late` is the key its
      after-hook computes anew when it fires, if that finds the record or collection at all. The
      delete of a model that stands for no record is one without messages, under a key of its own. */
  datatype Action =
    | Delete(key: Key, late: Option<Key>, outcome: Outcome, messages: seq<seq<Message>>,
             before: seq<Action>, inside: seq<Action>, wrapped: bool)
    | Transaction(body: seq<Action>, fails: bool)

  /** The state as one client sees it: its store, the batches it was sent, and the after-hooks
      that wait for the open transaction, each with the key it will look up. */
  datatype State =
    State(store: map<Key, seq<Message>>, sent: seq<seq<Message>>, inTx: bool, waiting: seq<Option<Key>>)

  // ---- the specification, for client number c ---------------------------------------------------------

  function MessagesOf(a: Action, c: nat): seq<Message>
    requires a.Delete?
  {
    if c < |a.messages| then a.messages[c] else []
  }

  function Get(s: State, key: Key): seq<Message> {
    if key in s.store then s.store[key] else []
  }

  /** Each message is appended to what the store already holds; no message, no entry. */
  function DryCached(s: State, key: Key, messages: seq<Message>): State {
    if messages == [] then s else s.(store := s.store[key := Get(s, key) + messages])
  }

  function Unset(s: State, key: Key): State {
    s.(store := s.store - {key})
  }

  function Broadcast(s: State, key: Key): State {
    if key in s.store then Unset(s, key).(sent := s.sent + [s.store[key]]) else s
  }

  /** A success hook sends what the store holds under its key, an error hook discards it. */
  function Fired(s: State, hook: Option<Key>, failed: bool): State {
    match hook
    case None => s
    case Some(key) => if failed then Unset(s, key) else Broadcast(s, key)
  }

  function Resolved(s: State, hooks: seq<Option<Key>>, failed: bool): State {
    if hooks == [] then s
    else Fired(Resolved(s, hooks[..|hooks| - 1], failed), hooks[|hooks| - 1], failed)
  }

  function Begin(s: State): State {
    s.(inTx := true, waiting := [])
  }

  function End(s: State, failed: bool): State {
    Resolved(s, s.waiting, failed).(inTx := false, waiting := [])
  }

  function Finished(s: State, a: Action): State
    requires a.Delete?
  {
    if a.outcome.Done? && s.inTx then s.(waiting := s.waiting + [a.late])
    else Fired(s, a.late, !a.outcome.Done?)
  }

  function Inside(s: State, a: Action, c: nat): State
    requires a.Delete?
    decreases a, 1
  {
    var own := a.wrapped && !s.inTx;
    var t := ExecAll(DryCached(if own then Begin(s) else s, a.key, MessagesOf(a, c)), a.inside, c);
    if own then End(t, a.outcome.FailAfter?) else t
  }

  function Exec(s: State, a: Action, c: nat): State
    decreases a, 2
  {
    match a
    case Transaction(body, fails) =>
      if s.inTx then ExecAll(s, body, c) else End(ExecAll(Begin(s), body, c), fails)
    case Delete(_, _, outcome, _, before, _, _) =>
      var s1 := ExecAll(s, before, c);
      Finished(if outcome.FailBefore? then s1 else Inside(s1, a, c), a)
  }

  function ExecAll(s: State, actions: seq<Action>, c: nat): State
    decreases actions, 0
  {
    if actions == [] then s else ExecAll(Exec(s, actions[0], c), actions[1..], c)
  }

  // ---- nothing is left behind -------------------------------------------------------------------------

  /** The after-hook looks up the key the messages are stored under. */
  predicate Found(a: Action)
    requires a.Delete?
  {
    a.late == Some(a.key)
  }

  /** So do the hooks of all deletes. */
  predicate AllFound(a: Action)
    decreases a, 1
  {
    match a
    case Transaction(body, _) => AllFoundIn(body)
    case Delete(_, _, _, _, before, inside, _) => Found(a) && AllFoundIn(before) && AllFoundIn(inside)
  }

  predicate AllFoundIn(actions: seq<Action>)
    decreases actions, 0
  {
    actions == [] || (AllFound(actions[0]) && AllFoundIn(actions[1..]))
  }

  /** What `s` did not hold, `t` holds only for a hook that waits. */
  ghost predicate Kept(s: State, t: State) {
    && t.inTx == s.inTx
    && (!t.inTx ==> t.waiting == [])
    && s.waiting <= t.waiting
    && forall key :: key in t.store ==> key in s.store || Some(key) in t.waiting
  }

  lemma {:induction false} ResolvedKeys(s: State, hooks: seq<Option<Key>>, failed: bool)
    ensures var t := Resolved(s, hooks, failed);
      && t.inTx == s.inTx && t.waiting == s.waiting
      && forall key :: key in t.store ==> key in s.store && Some(key) !in hooks
  {
    if hooks != [] {
      var init, last := hooks[..|hooks| - 1], hooks[|hooks| - 1];
      ResolvedKeys(s, init, failed);
      assert hooks == init + [last];
    }
  }

  lemma KeptChain(s: State, t: State, u: State)
    requires Kept(s, t) && Kept(t, u)
    ensures Kept(s, u)
  {
    assert u.waiting == t.waiting + u.waiting[|t.waiting|..];
  }

  lemma {:induction false} NothingLeftBy(s: State, a: Action, c: nat)
    requires AllFound(a) && (!s.inTx ==> s.waiting == [])
    ensures Kept(s, Exec(s, a, c))
    decreases a, 2
  {
    match a
    case Transaction(body, fails) =>
      if s.inTx {
        NothingLeft(s, body, c);
      } else {
        var t := ExecAll(Begin(s), body, c);
        NothingLeft(Begin(s), body, c);
        ResolvedKeys(t, t.waiting, fails);
      }
    case Delete(key, _, outcome, _, before, inside, wrapped) =>
      hide Resolved, Kept;
      NothingLeft(s, before, c);
      var s1 := ExecAll(s, before, c);
      KeptShape(s, s1);
      if outcome.FailBefore? {
        assert KeptBut(s1, s1, key);
        FinishedKept(s, s1, s1, a);
      } else {
        InsideKept(s1, a, c);
        FinishedKept(s, s1, Inside(s1, a, c), a);
      }
  }

  lemma KeptShape(s: State, t: State)
    requires Kept(s, t)
    ensures t.inTx == s.inTx && (!t.inTx ==> t.waiting == [])
  {
  }

  /** As Kept, while the delete of `key` is under way. */
  ghost predicate KeptBut(s: State, t: State, key: Key) {
    && t.inTx == s.inTx
    && (!t.inTx ==> t.waiting == [])
    && s.waiting <= t.waiting
    && forall k :: k in t.store && k != key ==> k in s.store || Some(k) in t.waiting
  }

  lemma {:induction false} InsideKept(s: State, a: Action, c: nat)
    requires AllFound(a) && a.Delete? && (!s.inTx ==> s.waiting == [])
    ensures KeptBut(s, Inside(s, a, c), a.key)
    decreases a, 1
  {
    var own := a.wrapped && !s.inTx;
    var s2 := DryCached(if own then Begin(s) else s, a.key, MessagesOf(a, c));
    NothingLeft(s2, a.inside, c);
    var t := ExecAll(s2, a.inside, c);
    if own {
      ResolvedKeys(t, t.waiting, a.outcome.FailAfter?);
    }
  }

  lemma FinishedKept(s: State, s1: State, t: State, a: Action)
    requires a.Delete? && Found(a) && Kept(s, s1)
    requires KeptBut(s1, t, a.key)
    ensures Kept(s, Finished(t, a))
  {
    var u := Finished(t, a);
    assert t.waiting == s1.waiting + t.waiting[|s1.waiting|..];
    assert forall hook :: hook in s1.waiting || hook in t.waiting ==> hook in u.waiting;
  }

  /** Over any run of deletes whose hooks find what they stored, with any nesting and any
      failures: a key stays in a client's store only as long as its transaction is open; once it
      has ended none that the run added is left. */
  lemma {:induction false} NothingLeft(s: State, actions: seq<Action>, c: nat)
    requires AllFoundIn(actions) && (!s.inTx ==> s.waiting == [])
    ensures Kept(s, ExecAll(s, actions, c))
    decreases actions, 0
  {
    if actions != [] {
      var t := Exec(s, actions[0], c);
      NothingLeftBy(s, actions[0], c);
      NothingLeft(t, actions[1..], c);
      KeptChain(s, t, ExecAll(s, actions, c));
    }
  }

  // ---- each message once, exactly when its delete commits ---------------------------------------------

  datatype Pending = Pending(hook: Option<Key>, messages: seq<Message>)

  /** The deletes of an open transaction that went well, in the order their hooks wait. */
  function Waits(a: Action, c: nat): seq<Pending>
    decreases a, 1
  {
    match a
    case Transaction(body, _) => WaitsAll(body, c)
    case Delete(key, _, outcome, _, before, inside, _) =>
      WaitsAll(before, c)
      + (if outcome.FailBefore? then [] else WaitsAll(inside, c))
      + (if outcome.Done? then [Pending(a.late, MessagesOf(a, c))] else [])
  }

  function WaitsAll(actions: seq<Action>, c: nat): seq<Pending>
    decreases actions, 0
  {
    if actions == [] then [] else Waits(actions[0], c) + WaitsAll(actions[1..], c)
  }

  /** The batches a client should get. */
  function Batches(pending: seq<Pending>): seq<seq<Message>> {
    if pending == [] then []
    else
      var p := pending[|pending| - 1];
      Batches(pending[..|pending| - 1]) + (if p.messages == [] then [] else [p.messages])
  }

  /** What a run outside a transaction should send: the messages of the successful deletes. */
  function Sends(a: Action, c: nat): seq<seq<Message>>
    decreases a, 1
  {
    match a
    case Transaction(body, fails) => if fails then [] else Batches(WaitsAll(body, c))
    case Delete(key, _, outcome, _, before, inside, wrapped) =>
      SendsAll(before, c)
      + (if outcome.FailBefore? then [] else SendsInside(a, c))
      + (if outcome.Done? then Batches([Pending(a.late, MessagesOf(a, c))]) else [])
  }

  function SendsInside(a: Action, c: nat): seq<seq<Message>>
    requires a.Delete?
    decreases a, 0
  {
    if !a.wrapped then SendsAll(a.inside, c)
    else if a.outcome.FailAfter? then []
    else Batches(WaitsAll(a.inside, c))
  }

  function SendsAll(actions: seq<Action>, c: nat): seq<seq<Message>>
    decreases actions, 0
  {
    if actions == [] then [] else Sends(actions[0], c) + SendsAll(actions[1..], c)
  }

  /** At most one delete per record is under way or waiting at any time, and its after-hook
      finds what it stored. */
  predicate OnePending(s: State, running: set<Key>, a: Action, c: nat)
    decreases a, 1
  {
    match a
    case Transaction(body, _) => OnePendingAll(if s.inTx then s else Begin(s), running, body, c)
    case Delete(key, _, outcome, _, before, inside, wrapped) =>
      && Found(a) && key !in running && Some(key) !in s.waiting
      && OnePendingAll(s, running + {key}, before, c)
      && (!outcome.FailBefore? ==>
            var s1 := ExecAll(s, before, c);
            OnePendingAll(DryCached(if wrapped && !s1.inTx then Begin(s1) else s1, key, MessagesOf(a, c)),
                          running + {key}, inside, c))
  }

  predicate OnePendingAll(s: State, running: set<Key>, actions: seq<Action>, c: nat)
    decreases actions, 0
  {
    actions == [] ||
    (OnePending(s, running, actions[0], c) && OnePendingAll(Exec(s, actions[0], c), running, actions[1..], c))
  }

  /** The store has entries only for deletes under way or waiting, and none of them is empty. */
  ghost predicate Accounted(s: State, running: set<Key>) {
    && (forall key :: key in s.store ==> s.store[key] != [] && (key in running || Some(key) in s.waiting))
    && (!s.inTx ==> s.waiting == [])
  }

  function Hooks(pending: seq<Pending>): (r: seq<Option<Key>>)
    ensures |r| == |pending|
    ensures forall i :: 0 <= i < |pending| ==> r[i] == pending[i].hook
  {
    seq(|pending|, i requires 0 <= i < |pending| => pending[i].hook)
  }

  predicate Distinct(hooks: seq<Option<Key>>) {
    forall i, j :: 0 <= i < j < |hooks| ==> hooks[i] != hooks[j]
  }

  /** A delete that began after `s` and waits in `t` with its own messages. */
  ghost predicate Own(s: State, t: State, running: set<Key>, p: Pending) {
    && p.hook.Some? && p.hook.value !in running && p.hook !in s.waiting
    && Get(t, p.hook.value) == p.messages
  }

  /** Between two states of an open transaction exactly the deletes `pending` were added, each
      holding its own messages. */
  ghost predicate Holds(s: State, t: State, running: set<Key>, pending: seq<Pending>) {
    && s.inTx && t.inTx && t.sent == s.sent
    && t.waiting == s.waiting + Hooks(pending)
    && Distinct(Hooks(pending))
    && (forall i :: 0 <= i < |pending| ==> Own(s, t, running, pending[i]))
    && (forall key :: Some(key) !in Hooks(pending) ==> Get(t, key) == Get(s, key))
    && Accounted(t, running)
  }

  lemma JoinedHooks(s: State, t: State, p: seq<Pending>, q: seq<Pending>)
    requires t.waiting == s.waiting + Hooks(p)
    ensures Hooks(p + q) == Hooks(p) + Hooks(q)
    ensures forall hook :: hook in t.waiting <==> hook in s.waiting || hook in Hooks(p)
  {
  }

  /** Deletes that began later leave the earlier ones alone. */
  lemma OwnChain(s: State, t: State, u: State, running: set<Key>, p: seq<Pending>, q: seq<Pending>)
    requires t.waiting == s.waiting + Hooks(p) && Distinct(Hooks(p)) && Distinct(Hooks(q))
    requires forall i :: 0 <= i < |p| ==> Own(s, t, running, p[i])
    requires forall i :: 0 <= i < |q| ==> Own(t, u, running, q[i])
    requires forall key :: Some(key) !in Hooks(q) && key !in running ==> Get(u, key) == Get(t, key)
    ensures forall i :: 0 <= i < |p + q| ==> Own(s, u, running, (p + q)[i])
    ensures Distinct(Hooks(p + q))
  {
    JoinedHooks(s, t, p, q);
    forall i | 0 <= i < |q| ensures Own(s, u, running, q[i]) && Hooks(q)[i] !in Hooks(p) {
      assert Own(t, u, running, q[i]);
    }
    forall i | 0 <= i < |p| ensures Own(s, u, running, p[i]) {
      assert Own(s, t, running, p[i]);
      assert forall j :: 0 <= j < |q| ==> Hooks(q)[j] != Hooks(p)[i];
    }
    forall i, j | 0 <= i < j < |Hooks(p + q)| ensures Hooks(p + q)[i] != Hooks(p + q)[j] {
      if i < |p| <= j {
        assert Hooks(q)[j - |p|] !in Hooks(p);
      }
    }
  }

  lemma HoldsChain(s: State, t: State, u: State, running: set<Key>, p: seq<Pending>, q: seq<Pending>)
    requires Holds(s, t, running, p) && Holds(t, u, running, q)
    ensures Holds(s, u, running, p + q)
  {
    hide Own, Distinct, Accounted;
    JoinedHooks(s, t, p, q);
    OwnChain(s, t, u, running, p, q);
  }

  lemma HoldsNothing(s: State, running: set<Key>)
    requires s.inTx && Accounted(s, running)
    ensures Holds(s, s, running, [])
  {
  }

  /** As Holds, while a delete of `key` with these messages is still under way. */
  ghost predicate HoldsAround(s: State, t: State, running: set<Key>, pending: seq<Pending>, key: Key, m: seq<Message>) {
    && s.inTx && t.inTx && t.sent == s.sent
    && t.waiting == s.waiting + Hooks(pending)
    && Distinct(Hooks(pending))
    && (forall i :: 0 <= i < |pending| ==> Own(s, t, running + {key}, pending[i]))
    && (forall k :: Some(k) !in Hooks(pending) && k != key ==> Get(t, k) == Get(s, k))
    && Get(t, key) == m
    && Accounted(t, running + {key})
  }

  lemma HoldsStarts(s: State, s1: State, running: set<Key>, a: Action, c: nat, p: seq<Pending>)
    requires a.Delete? && Holds(s, s1, running + {a.key}, p)
    requires Accounted(s, running) && a.key !in running && Some(a.key) !in s.waiting
    ensures HoldsAround(s, DryCached(s1, a.key, MessagesOf(a, c)), running, p, a.key, MessagesOf(a, c))
  {
    assert Some(a.key) !in Hooks(p);
    assert Get(s1, a.key) == [];
    assert forall i :: 0 <= i < |p| ==> p[i].hook == Hooks(p)[i];
  }

  lemma RunningIsNotOwn(s: State, t: State, running: set<Key>, p: seq<Pending>, key: Key)
    requires key in running && forall i :: 0 <= i < |p| ==> Own(s, t, running, p[i])
    ensures Some(key) !in Hooks(p)
  {
    assert forall i :: 0 <= i < |p| ==> Own(s, t, running, p[i]) && Hooks(p)[i] == p[i].hook;
  }

  lemma HoldsGoesOn(s: State, s2: State, s3: State, running: set<Key>, key: Key, m: seq<Message>,
                    p: seq<Pending>, q: seq<Pending>)
    requires HoldsAround(s, s2, running, p, key, m) && Holds(s2, s3, running + {key}, q)
    ensures HoldsAround(s, s3, running, p + q, key, m)
  {
    JoinedHooks(s, s2, p, q);
    hide Own, Distinct, Accounted;
    RunningIsNotOwn(s2, s3, running + {key}, q, key);
    OwnChain(s, s2, s3, running + {key}, p, q);
  }

  lemma HoldsFailed(s: State, t: State, running: set<Key>, p: seq<Pending>, key: Key, m: seq<Message>)
    requires HoldsAround(s, t, running, p, key, m)
    requires Accounted(s, running) && key !in running && Some(key) !in s.waiting
    ensures Holds(s, Unset(t, key), running, p)
  {
    assert Some(key) !in Hooks(p);
    assert Get(s, key) == [];
  }

  lemma HoldsDone(s: State, t: State, running: set<Key>, p: seq<Pending>, key: Key, m: seq<Message>)
    requires HoldsAround(s, t, running, p, key, m)
    requires Accounted(s, running) && key !in running && Some(key) !in s.waiting
    ensures Holds(s, t.(waiting := t.waiting + [Some(key)]), running, p + [Pending(Some(key), m)])
  {
    assert Some(key) !in Hooks(p);
    assert Hooks(p + [Pending(Some(key), m)]) == Hooks(p) + [Some(key)];
  }

  lemma HoldsFailBefore(s: State, s1: State, running: set<Key>, a: Action, p: seq<Pending>)
    requires a.Delete? && a.outcome.FailBefore? && Found(a) && Accounted(s, running)
    requires a.key !in running && Some(a.key) !in s.waiting
    requires Holds(s, s1, running + {a.key}, p)
    ensures Holds(s, Finished(s1, a), running, p)
  {
    assert Some(a.key) !in Hooks(p);
    assert Get(s1, a.key) == [];
  }

  lemma {:induction false} OpenHoldsBy(s: State, running: set<Key>, a: Action, c: nat)
    requires s.inTx && Accounted(s, running) && OnePending(s, running, a, c)
    ensures Holds(s, Exec(s, a, c), running, Waits(a, c))
    decreases a, 1
  {
    hide Holds, Accounted;
    match a
    case Transaction(body, _) => OpenHolds(s, running, body, c);
    case Delete(key, _, outcome, _, before, inside, _) =>
      AccountedGrows(s, running, key);
      OpenHolds(s, running + {key}, before, c);
      var s1 := ExecAll(s, before, c);
      HoldsShape(s, s1, running + {key}, WaitsAll(before, c));
      if outcome.FailBefore? {
        HoldsFailBefore(s, s1, running, a, WaitsAll(before, c));
        assert Waits(a, c) == WaitsAll(before, c);
      } else {
        var s2 := DryCached(s1, key, MessagesOf(a, c));
        AccountedDryCached(s1, running, a, c);
        OpenHolds(s2, running + {key}, inside, c);
        var p, q := WaitsAll(before, c), WaitsAll(inside, c);
        HoldsStarts(s, s1, running, a, c, p);
        HoldsGoesOn(s, s2, ExecAll(s2, inside, c), running, key, MessagesOf(a, c), p, q);
        if outcome.Done? {
          HoldsDone(s, ExecAll(s2, inside, c), running, p + q, key, MessagesOf(a, c));
        } else {
          HoldsFailed(s, ExecAll(s2, inside, c), running, p + q, key, MessagesOf(a, c));
          assert Waits(a, c) == p + q;
        }
      }
  }

  lemma HoldsShape(s: State, t: State, running: set<Key>, pending: seq<Pending>)
    requires Holds(s, t, running, pending)
    ensures t.inTx && Accounted(t, running)
  {
  }

  lemma AccountedGrows(s: State, running: set<Key>, key: Key)
    requires Accounted(s, running)
    ensures Accounted(s, running + {key})
  {
  }

  lemma AccountedDryCached(s: State, running: set<Key>, a: Action, c: nat)
    requires a.Delete? && Accounted(s, running + {a.key})
    ensures Accounted(DryCached(s, a.key, MessagesOf(a, c)), running + {a.key})
  {
  }

  lemma {:induction false} OpenHolds(s: State, running: set<Key>, actions: seq<Action>, c: nat)
    requires s.inTx && Accounted(s, running) && OnePendingAll(s, running, actions, c)
    ensures Holds(s, ExecAll(s, actions, c), running, WaitsAll(actions, c))
    decreases actions, 0
  {
    hide Holds, Accounted;
    if actions == [] {
      HoldsNothing(s, running);
    } else {
      var t := Exec(s, actions[0], c);
      OpenHoldsBy(s, running, actions[0], c);
      HoldsShape(s, t, running, Waits(actions[0], c));
      OpenHolds(t, running, actions[1..], c);
      HoldsChain(s, t, ExecAll(s, actions, c), running, Waits(actions[0], c), WaitsAll(actions[1..], c));
    }
  }

  lemma ResolvedStep(s: State, hooks: seq<Option<Key>>, hook: Option<Key>, failed: bool)
    ensures Resolved(s, hooks + [hook], failed) == Fired(Resolved(s, hooks, failed), hook, failed)
  {
    assert (hooks + [hook])[..|hooks|] == hooks;
  }

  lemma BatchesStep(pending: seq<Pending>, p: Pending)
    ensures Batches(pending + [p]) == Batches(pending) + (if p.messages == [] then [] else [p.messages])
  {
    assert (pending + [p])[..|pending|] == pending;
  }

  ghost predicate NoEmpty(s: State) {
    forall key :: key in s.store ==> s.store[key] != []
  }

  /** Firing the hooks empties exactly the keys that one of them looks up. */
  lemma {:induction false} ResolvedContents(s: State, hooks: seq<Option<Key>>, failed: bool, key: Key)
    ensures var t := Resolved(s, hooks, failed);
      && t.inTx == s.inTx && t.waiting == s.waiting && (NoEmpty(s) ==> NoEmpty(t))
      && (failed ==> t.sent == s.sent)
      && Get(t, key) == if Some(key) in hooks then [] else Get(s, key)
  {
    if hooks != [] {
      var init, last := hooks[..|hooks| - 1], hooks[|hooks| - 1];
      ResolvedContents(s, init, failed, key);
      assert hooks == init + [last];
    }
  }

  /** What success hooks send: for each key, at its first hook, all that is stored under it. */
  function BatchesIn(contents: map<Key, seq<Message>>, hooks: seq<Option<Key>>): seq<seq<Message>> {
    if hooks == [] then []
    else
      var init, last := hooks[..|hooks| - 1], hooks[|hooks| - 1];
      BatchesIn(contents, init)
      + if last.Some? && last !in init && last.value in contents then [contents[last.value]] else []
  }

  lemma {:induction false} ResolvedSent(s: State, hooks: seq<Option<Key>>)
    requires NoEmpty(s)
    ensures Resolved(s, hooks, false).sent == s.sent + BatchesIn(s.store, hooks)
  {
    if hooks != [] {
      var init, last := hooks[..|hooks| - 1], hooks[|hooks| - 1];
      ResolvedSent(s, init);
      if last.Some? {
        ResolvedContents(s, init, false, last.value);
      }
    }
  }

  predicate Stores(s: State, p: Pending) {
    p.hook.Some? && Get(s, p.hook.value) == p.messages
  }

  lemma DistinctInit(pending: seq<Pending>)
    requires pending != [] && Distinct(Hooks(pending))
    ensures var init, last := pending[..|pending| - 1], pending[|pending| - 1];
      Hooks(pending)[..|init|] == Hooks(init) && Distinct(Hooks(init)) && last.hook !in Hooks(init)
  {
  }

  /** With distinct keys that is each hook's own batch. */
  lemma {:induction false} DistinctBatches(s: State, pending: seq<Pending>)
    requires Distinct(Hooks(pending)) && NoEmpty(s)
    requires forall i :: 0 <= i < |pending| ==> Stores(s, pending[i])
    ensures BatchesIn(s.store, Hooks(pending)) == Batches(pending)
  {
    if pending != [] {
      hide Distinct;
      var n := |pending| - 1;
      var init, last := pending[..n], pending[n];
      DistinctInit(pending);
      assert Stores(s, last);
      DistinctBatches(s, init);
    }
  }

  /** From one closed state to another: exactly these batches were sent, no store changed. */
  ghost predicate Sent(s: State, t: State, running: set<Key>, batches: seq<seq<Message>>) {
    !s.inTx && !t.inTx && t.sent == s.sent + batches && t.store == s.store && Accounted(t, running)
  }

  lemma SameStore(s: State, t: State)
    requires NoEmpty(s) && NoEmpty(t) && forall key :: Get(t, key) == Get(s, key)
    ensures t.store == s.store
  {
    forall key ensures key in t.store <==> key in s.store {
      assert Get(t, key) == Get(s, key);
    }
    forall key | key in s.store ensures t.store[key] == s.store[key] {
      assert Get(t, key) == Get(s, key);
    }
  }

  lemma EndStore(s: State, u: State, failed: bool, running: set<Key>, pending: seq<Pending>)
    requires NoEmpty(s) && NoEmpty(u) && s.waiting == [] && Accounted(s, running) && Holds(s, u, running, pending)
    ensures Resolved(u, Hooks(pending), failed).store == s.store
  {
    hide Holds, Accounted, Resolved, NoEmpty;
    var t := Resolved(u, Hooks(pending), failed);
    ResolvedContents(u, Hooks(pending), failed, "");
    forall key ensures Get(t, key) == Get(s, key) {
      ResolvedContents(u, Hooks(pending), failed, key);
      EndedKey(s, u, failed, running, pending, key);
    }
    SameStore(s, t);
  }

  lemma EndSends(s: State, u: State, failed: bool, running: set<Key>, pending: seq<Pending>)
    requires s.inTx && s.waiting == [] && Accounted(s, running) && Holds(s, u, running, pending)
    ensures var t := End(u, failed);
      && !t.inTx && t.sent == s.sent + (if failed then [] else Batches(pending))
      && t.store == s.store && Accounted(t, running)
  {
    AccountedNonEmpty(s, running);
    hide Holds, Batches, Accounted, NoEmpty, Resolved;
    HeldBatches(s, u, running, pending);
    EndSent(u, failed, pending);
    EndStore(s, u, failed, running, pending);
    AccountedClosed(s, End(u, failed), running);
  }

  lemma EndSent(u: State, failed: bool, pending: seq<Pending>)
    requires NoEmpty(u) && BatchesIn(u.store, u.waiting) == Batches(pending)
    ensures End(u, failed).sent == u.sent + if failed then [] else Batches(pending)
  {
    hide NoEmpty, Resolved, BatchesIn, Batches;
    ResolvedContents(u, u.waiting, failed, "");
    ResolvedSent(u, u.waiting);
  }

  lemma AccountedNonEmpty(s: State, running: set<Key>)
    requires Accounted(s, running)
    ensures NoEmpty(s)
  {
  }

  lemma AccountedClosed(s: State, t: State, running: set<Key>)
    requires Accounted(s, running) && t.store == s.store && s.waiting == t.waiting == []
    ensures Accounted(t, running)
  {
  }

  lemma HeldBatches(s: State, u: State, running: set<Key>, pending: seq<Pending>)
    requires s.waiting == [] && Holds(s, u, running, pending)
    ensures u.waiting == Hooks(pending) && u.sent == s.sent && NoEmpty(u)
    ensures BatchesIn(u.store, u.waiting) == Batches(pending)
  {
    assert u.waiting == Hooks(pending);
    assert forall i :: 0 <= i < |pending| ==> Own(s, u, running, pending[i]);
    DistinctBatches(u, pending);
  }

  lemma EndedKey(s: State, u: State, failed: bool, running: set<Key>, pending: seq<Pending>, key: Key)
    requires s.waiting == [] && Accounted(s, running) && Holds(s, u, running, pending)
    ensures (if Some(key) in Hooks(pending) then [] else Get(u, key)) == Get(s, key)
  {
    assert forall i :: 0 <= i < |pending| ==> Own(s, u, running, pending[i]) && Hooks(pending)[i] == pending[i].hook;
  }

  lemma SentChain(s: State, t: State, u: State, running: set<Key>, a: seq<seq<Message>>, b: seq<seq<Message>>)
    requires Sent(s, t, running, a) && Sent(t, u, running, b)
    ensures Sent(s, u, running, a + b)
  {
  }

  /** The end of a delete outside a transaction: `t` differs from `s` by what was sent meanwhile
      and by the messages of the delete itself. */
  lemma SentFinished(s: State, t: State, running: set<Key>, a: Action, c: nat, batches: seq<seq<Message>>)
    requires a.Delete? && !s.inTx && !t.inTx && Accounted(s, running) && t.waiting == []
    requires Found(a) && a.key !in s.store && t.sent == s.sent + batches
    requires t.store == DryCached(s, a.key, MessagesOf(a, c)).store || (t.store == s.store && !a.outcome.Done?)
    ensures Sent(s, Finished(t, a), running,
                 batches + if a.outcome.Done? then Batches([Pending(a.late, MessagesOf(a, c))]) else [])
  {
    var m := MessagesOf(a, c);
    BatchesStep([], Pending(a.late, m));
    assert [] + [Pending(a.late, m)] == [Pending(a.late, m)];
    assert Get(s, a.key) + m == m && Batches([]) == [];
    assert s.store - {a.key} == s.store;
    assert s.store[a.key := m] - {a.key} == s.store;
    assert s.sent + batches + [m] == s.sent + (batches + [m]);
    assert batches + [] == batches;
  }

  lemma {:induction false} ClosedSendsBy(s: State, running: set<Key>, a: Action, c: nat)
    requires !s.inTx && Accounted(s, running) && OnePending(s, running, a, c)
    ensures Sent(s, Exec(s, a, c), running, Sends(a, c))
    decreases a, 1
  {
    match a
    case Transaction(body, fails) =>
      OpenHolds(Begin(s), running, body, c);
      EndSends(Begin(s), ExecAll(Begin(s), body, c), fails, running, WaitsAll(body, c));
    case Delete(key, _, outcome, _, before, inside, wrapped) =>
      hide ExecAll, Resolved, SendsAll, WaitsAll, OnePendingAll;
      AccountedGrows(s, running, key);
      ClosedSends(s, running + {key}, before, c);
      var s1 := ExecAll(s, before, c);
      assert key !in s1.store;
      assert s1.store == s.store && s1.waiting == [];
      var sent := SendsAll(before, c);
      if outcome.FailBefore? {
        SentFinished(s, s1, running, a, c, sent);
        assert Sends(a, c) == sent + [];
      } else {
        var t := Inside(s1, a, c);
        InsideSends(s1, running, a, c);
        assert t.sent == s.sent + (sent + SendsInside(a, c));
        SentFinished(s, t, running, a, c, sent + SendsInside(a, c));
      }
  }

  /** The part of a delete between its messages being made and its end. */
  lemma {:induction false} InsideSends(s: State, running: set<Key>, a: Action, c: nat)
    requires a.Delete? && !a.outcome.FailBefore? && !s.inTx && Accounted(s, running + {a.key})
    requires OnePendingAll(DryCached(if a.wrapped then Begin(s) else s, a.key, MessagesOf(a, c)),
                           running + {a.key}, a.inside, c)
    ensures var t := Inside(s, a, c);
      && !t.inTx && t.waiting == [] && t.sent == s.sent + SendsInside(a, c)
      && t.store == DryCached(s, a.key, MessagesOf(a, c)).store
    decreases a, 0
  {
    hide ExecAll, Resolved, SendsAll, WaitsAll, OnePendingAll;
    var now := running + {a.key};
    AccountedDryCached(s, running, a, c);
    if a.wrapped {
      var s2 := DryCached(Begin(s), a.key, MessagesOf(a, c));
      AccountedDryCached(Begin(s), running, a, c);
      OpenHolds(s2, now, a.inside, c);
      EndSends(s2, ExecAll(s2, a.inside, c), a.outcome.FailAfter?, now, WaitsAll(a.inside, c));
    } else {
      ClosedSends(DryCached(s, a.key, MessagesOf(a, c)), now, a.inside, c);
    }
  }

  lemma {:induction false} ClosedSends(s: State, running: set<Key>, actions: seq<Action>, c: nat)
    requires !s.inTx && Accounted(s, running) && OnePendingAll(s, running, actions, c)
    ensures Sent(s, ExecAll(s, actions, c), running, SendsAll(actions, c))
    decreases actions, 0
  {
    if actions != [] {
      ClosedSendsBy(s, running, actions[0], c);
      ClosedSends(Exec(s, actions[0], c), running, actions[1..], c);
      SentChain(s, Exec(s, actions[0], c), ExecAll(s, actions, c), running, Sends(actions[0], c),
                SendsAll(actions[1..], c));
    } else {
      assert s.sent + [] == s.sent;
    }
  }

  /** Over any run with at most one delete per record under way or waiting, a client is sent
      exactly the messages of the successful deletes outside rolled back transactions, each once
      and in order, and its store ends empty. */
  lemma DeletesAreConserved(s: State, run: seq<Action>, c: nat)
    requires !s.inTx && s.store == map[] && s.waiting == []
    requires OnePendingAll(s, {}, run, c)
    ensures ExecAll(s, run, c) == s.(sent := s.sent + SendsAll(run, c))
  {
    ClosedSends(s, {}, run, c);
  }

  // ---- what is lost, exactly --------------------------------------------------------------------------

  /** A delete that fails and whose error hook discards the key. */
  predicate Clears(a: Action, key: Key)
    requires a.Delete?
  {
    !a.outcome.Done? && a.late == Some(key)
  }

  /** Some delete that is reached does so. */
  predicate Fails(a: Action, key: Key)
    decreases a, 1
  {
    match a
    case Transaction(body, _) => FailsIn(body, key)
    case Delete(_, _, outcome, _, before, inside, _) =>
      FailsIn(before, key) || (!outcome.FailBefore? && FailsIn(inside, key)) || Clears(a, key)
  }

  predicate FailsIn(actions: seq<Action>, key: Key)
    decreases actions, 0
  {
    actions != [] && (Fails(actions[0], key) || FailsIn(actions[1..], key))
  }

  /** The messages made for the key after the last such failure. */
  function Since(a: Action, key: Key, c: nat): seq<Message>
    decreases a, 1
  {
    match a
    case Transaction(body, _) => SinceIn(body, key, c)
    case Delete(k, _, outcome, _, before, inside, _) =>
      if Clears(a, key) then []
      else if outcome.FailBefore? then SinceIn(before, key, c)
      else if FailsIn(inside, key) then SinceIn(inside, key, c)
      else SinceIn(before, key, c) + (if k == key then MessagesOf(a, c) else []) + SinceIn(inside, key, c)
  }

  function SinceIn(actions: seq<Action>, key: Key, c: nat): seq<Message>
    decreases actions, 0
  {
    if actions == [] then []
    else if FailsIn(actions[1..], key) then SinceIn(actions[1..], key, c)
    else Since(actions[0], key, c) + SinceIn(actions[1..], key, c)
  }

  /** What a store that held `was` under the key holds after the actions. */
  function Content(was: seq<Message>, actions: seq<Action>, key: Key, c: nat): seq<Message> {
    (if FailsIn(actions, key) then [] else was) + SinceIn(actions, key, c)
  }

  /** What does not depend on any one key: nothing is sent, and the hooks of the deletes that
      went well wait in order. */
  ghost predicate OpenEnds(s: State, t: State, pending: seq<Pending>) {
    && t.inTx && t.sent == s.sent && t.waiting == s.waiting + Hooks(pending)
    && (NoEmpty(s) ==> NoEmpty(t))
  }

  lemma OpenEndsChain(s: State, t: State, u: State, p: seq<Pending>, q: seq<Pending>)
    requires OpenEnds(s, t, p) && OpenEnds(t, u, q)
    ensures OpenEnds(s, u, p + q)
  {
    assert Hooks(p + q) == Hooks(p) + Hooks(q);
  }

  lemma DeleteEnds(s: State, a: Action, c: nat)
    requires s.inTx && a.Delete?
    ensures OpenEnds(s, DryCached(s, a.key, MessagesOf(a, c)), [])
    ensures OpenEnds(s, Finished(s, a), if a.outcome.Done? then [Pending(a.late, MessagesOf(a, c))] else [])
  {
    assert s.waiting + Hooks([]) == s.waiting;
  }

  lemma {:induction false} OpenEndsBy(s: State, a: Action, c: nat)
    requires s.inTx
    ensures OpenEnds(s, Exec(s, a, c), Waits(a, c))
    decreases a, 1
  {
    match a
    case Transaction(body, _) => StaysOpen(s, body, c);
    case Delete(_, _, outcome, _, before, inside, _) =>
      hide OpenEnds, DryCached, Finished;
      StaysOpen(s, before, c);
      var s1 := ExecAll(s, before, c);
      OpenEndsShape(s, s1, WaitsAll(before, c));
      var s3 := if outcome.FailBefore? then s1 else Inside(s1, a, c);
      var q := if outcome.FailBefore? then [] else WaitsAll(inside, c);
      if outcome.FailBefore? {
        assert WaitsAll(before, c) + q == WaitsAll(before, c);
      } else {
        var s2 := DryCached(s1, a.key, MessagesOf(a, c));
        DeleteEnds(s1, a, c);
        OpenEndsShape(s1, s2, []);
        StaysOpen(s2, inside, c);
        OpenEndsChain(s1, s2, s3, [], q);
        assert [] + q == q;
        OpenEndsChain(s, s1, s3, WaitsAll(before, c), q);
      }
      OpenEndsShape(s, s3, WaitsAll(before, c) + q);
      DeleteEnds(s3, a, c);
      OpenEndsChain(s, s3, Exec(s, a, c), WaitsAll(before, c) + q,
                    if outcome.Done? then [Pending(a.late, MessagesOf(a, c))] else []);
  }

  lemma OpenEndsShape(s: State, t: State, pending: seq<Pending>)
    requires OpenEnds(s, t, pending)
    ensures t.inTx
  {
  }

  lemma {:induction false} StaysOpen(s: State, actions: seq<Action>, c: nat)
    requires s.inTx
    ensures OpenEnds(s, ExecAll(s, actions, c), WaitsAll(actions, c))
    decreases actions, 0
  {
    if actions != [] {
      var t := Exec(s, actions[0], c);
      OpenEndsBy(s, actions[0], c);
      StaysOpen(t, actions[1..], c);
      OpenEndsChain(s, t, ExecAll(s, actions, c), Waits(actions[0], c), WaitsAll(actions[1..], c));
    }
  }

  lemma Appended(was: seq<Message>, a: seq<Message>, b: seq<Message>, d: seq<Message>)
    ensures was + a + b + d == was + (a + b + d) && was + a + d == was + (a + d) && a + [] == a
  {
  }

  /** From the contents after the early hooks and after the rest to those after the delete. */
  lemma DeleteContent(was: seq<Message>, s1: State, s3: State, a: Action, c: nat, key: Key)
    requires a.Delete? && s3.inTx && Get(s1, key) == Content(was, a.before, key, c)
    requires if a.outcome.FailBefore? then s3 == s1
             else Get(s3, key) == Content(Get(DryCached(s1, a.key, MessagesOf(a, c)), key), a.inside, key, c)
    ensures Get(Finished(s3, a), key) == (if Fails(a, key) then [] else was) + Since(a, key, c)
  {
    hide FailsIn, SinceIn;
    var own := if a.key == key then MessagesOf(a, c) else [];
    Appended(if FailsIn(a.before, key) then [] else was, SinceIn(a.before, key, c), own, SinceIn(a.inside, key, c));
    if Clears(a, key) {
      assert Get(Finished(s3, a), key) == [];
    } else {
      assert Get(Finished(s3, a), key) == Get(s3, key);
      assert Get(DryCached(s1, a.key, MessagesOf(a, c)), key) == Get(s1, key) + own;
    }
  }

  lemma {:induction false} OpenContent(s: State, a: Action, c: nat, key: Key)
    requires s.inTx
    ensures Get(Exec(s, a, c), key) == (if Fails(a, key) then [] else Get(s, key)) + Since(a, key, c)
    decreases a, 1
  {
    match a
    case Transaction(body, _) => OpenContents(s, body, c, key);
    case Delete(k, _, outcome, _, before, inside, _) =>
      hide OpenEnds, WaitsAll, Content, Fails, Since, Finished, Get, DryCached;
      StaysOpen(s, before, c);
      OpenContents(s, before, c, key);
      var s1 := ExecAll(s, before, c);
      OpenEndsShape(s, s1, WaitsAll(before, c));
      var s3 := if outcome.FailBefore? then s1 else Inside(s1, a, c);
      if !outcome.FailBefore? {
        var s2 := DryCached(s1, k, MessagesOf(a, c));
        DeleteEnds(s1, a, c);
        OpenEndsShape(s1, s2, []);
        StaysOpen(s2, inside, c);
        OpenEndsShape(s2, s3, WaitsAll(inside, c));
        OpenContents(s2, inside, c, key);
      }
      DeleteContent(Get(s, key), s1, s3, a, c, key);
  }

  /** In an open transaction, whatever runs in it: a key holds what it held before, unless a
      delete of it failed, and after that all that was made for it since its last failure. What
      waits for the end is lost exactly when a later delete of the same key fails. */
  lemma {:induction false} OpenContents(s: State, actions: seq<Action>, c: nat, key: Key)
    requires s.inTx
    ensures Get(ExecAll(s, actions, c), key) == Content(Get(s, key), actions, key, c)
    decreases actions, 0
  {
    if actions != [] {
      hide Fails, Since, OpenEnds;
      OpenEndsBy(s, actions[0], c);
      OpenEndsShape(s, Exec(s, actions[0], c), Waits(actions[0], c));
      OpenContent(s, actions[0], c, key);
      OpenContents(Exec(s, actions[0], c), actions[1..], c, key);
      Appended(if Fails(actions[0], key) then [] else Get(s, key), Since(actions[0], key, c), [],
               SinceIn(actions[1..], key, c));
    } else {
      Appended([], Get(s, key), [], []);
    }
  }

  /** So a transaction, from any state outside one, sends for each key with a success hook, at the
      first of them, all that is stored under it by then, exactly if it commits. */
  lemma TransactionSends(s: State, body: seq<Action>, fails: bool, c: nat, key: Key)
    requires !s.inTx && s.waiting == [] && NoEmpty(s)
    ensures
      var u := ExecAll(Begin(s), body, c);
      && Exec(s, Transaction(body, fails), c).sent ==
         s.sent + (if fails then [] else BatchesIn(u.store, Hooks(WaitsAll(body, c))))
      && (key in u.store <==> Content(Get(s, key), body, key, c) != [])
      && (key in u.store ==> u.store[key] == Content(Get(s, key), body, key, c))
  {
    hide Content, BatchesIn, WaitsAll, NoEmpty;
    TransactionOpens(s, body, c);
    var u := ExecAll(Begin(s), body, c);
    ResolvedContents(u, u.waiting, fails, key);
    ResolvedSent(u, u.waiting);
    OpenContents(Begin(s), body, c, key);
    Stored(u, key);
  }

  lemma Stored(s: State, key: Key)
    requires NoEmpty(s)
    ensures key in s.store <==> Get(s, key) != []
  {
  }

  lemma TransactionOpens(s: State, body: seq<Action>, c: nat)
    ensures var u := ExecAll(Begin(s), body, c);
      u.inTx && u.sent == s.sent && u.waiting == Hooks(WaitsAll(body, c)) && (NoEmpty(s) ==> NoEmpty(u))
  {
    StaysOpen(Begin(s), body, c);
    assert [] + Hooks(WaitsAll(body, c)) == Hooks(WaitsAll(body, c));
  }

  // ---- what is left behind, exactly -------------------------------------------------------------------

  /** What a store that held `was` under the key holds after a transaction, and after a run
      outside one. */
  function AfterTransaction(was: seq<Message>, body: seq<Action>, fails: bool, key: Key, c: nat): seq<Message> {
    if Some(key) in Hooks(WaitsAll(body, c)) then [] else Content(was, body, key, c)
  }

  function Left(was: seq<Message>, a: Action, key: Key, c: nat): seq<Message>
    decreases a, 2
  {
    match a
    case Transaction(body, fails) => AfterTransaction(was, body, fails, key, c)
    case Delete(k, _, outcome, _, before, _, _) =>
      var early := LeftBy(was, before, key, c);
      if a.late == Some(key) then []
      else if outcome.FailBefore? then early
      else LeftInside(early, a, key, c)
  }

  function LeftInside(was: seq<Message>, a: Action, key: Key, c: nat): seq<Message>
    requires a.Delete?
    decreases a, 1
  {
    var own := was + if a.key == key then MessagesOf(a, c) else [];
    if a.wrapped then AfterTransaction(own, a.inside, a.outcome.FailAfter?, key, c) else LeftBy(own, a.inside, key, c)
  }

  function LeftBy(was: seq<Message>, run: seq<Action>, key: Key, c: nat): seq<Message>
    decreases run, 0
  {
    if run == [] then was else LeftBy(Left(was, run[0], key, c), run[1..], key, c)
  }

  lemma TransactionLeaves(s: State, body: seq<Action>, fails: bool, c: nat, key: Key)
    ensures var t := End(ExecAll(Begin(s), body, c), fails);
      !t.inTx && t.waiting == [] && Get(t, key) == AfterTransaction(Get(s, key), body, fails, key, c)
  {
    hide Content, WaitsAll;
    TransactionOpens(s, body, c);
    OpenContents(Begin(s), body, c, key);
    var u := ExecAll(Begin(s), body, c);
    ResolvedContents(u, u.waiting, fails, key);
  }

  lemma {:induction false} LeavesInside(s: State, a: Action, c: nat, key: Key)
    requires a.Delete? && !s.inTx && s.waiting == []
    ensures var t := Inside(s, a, c);
      !t.inTx && t.waiting == [] && Get(t, key) == LeftInside(Get(s, key), a, key, c)
    decreases a, 1
  {
    var m := MessagesOf(a, c);
    assert Get(DryCached(s, a.key, m), key) == Get(s, key) + if a.key == key then m else [];
    if a.wrapped {
      TransactionLeaves(DryCached(s, a.key, m), a.inside, a.outcome.FailAfter?, c, key);
      assert DryCached(Begin(s), a.key, m) == Begin(DryCached(s, a.key, m));
    } else {
      LeavesBy(DryCached(s, a.key, m), a.inside, c, key);
    }
  }

  lemma {:induction false} Leaves(s: State, a: Action, c: nat, key: Key)
    requires !s.inTx && s.waiting == []
    ensures var t := Exec(s, a, c);
      !t.inTx && t.waiting == [] && Get(t, key) == Left(Get(s, key), a, key, c)
    decreases a, 2
  {
    match a
    case Transaction(body, fails) => TransactionLeaves(s, body, fails, c, key);
    case Delete(_, _, outcome, _, before, _, _) =>
      hide LeftBy, LeftInside, Inside, ExecAll;
      LeavesBy(s, before, c, key);
      if !outcome.FailBefore? {
        LeavesInside(ExecAll(s, before, c), a, c, key);
      }
  }

  /** After any run of any deletes, a store holds a key exactly as this reckoning of the failures
      and of the keys that the after-hooks look up says. */
  lemma {:induction false} LeavesBy(s: State, run: seq<Action>, c: nat, key: Key)
    requires !s.inTx && s.waiting == []
    ensures var t := ExecAll(s, run, c);
      !t.inTx && t.waiting == [] && Get(t, key) == LeftBy(Get(s, key), run, key, c)
    decreases run, 0
  {
    if run != [] {
      hide Left;
      Leaves(s, run[0], c, key);
      LeavesBy(Exec(s, run[0], c), run[1..], c, key);
    }
  }

  /** One delete in a transaction over an empty store: for every client the key goes, and what
      that client may see is sent if it commits, exactly when the after-hook looks up the key. */
  lemma LoneDelete(a: Action, fails: bool, c: nat)
    requires a.Delete? && a.before == a.inside == [] && !a.wrapped && !a.outcome.FailBefore?
    ensures
      var m := if c < |a.messages| then a.messages[c] else [];
      var t := Exec(State(map[], [], false, []), Transaction([a], fails), c);
      && Get(t, a.key) == (if Found(a) then [] else m)
      && t.sent == if Found(a) && a.outcome.Done? && !fails && m != [] then [m] else []
  {
    hide Exec, Finished, End;
    LoneStep(a, c);
    LoneTransaction(a, fails, c);
    LoneEnd(a, fails, c);
  }

  /** The store of a client for which the messages of one delete were made. */
  function Made(a: Action, c: nat): map<Key, seq<Message>>
    requires a.Delete?
  {
    if c < |a.messages| && a.messages[c] != [] then map[a.key := a.messages[c]] else map[]
  }

  lemma LoneStep(a: Action, c: nat)
    requires a.Delete? && a.before == a.inside == [] && !a.wrapped && !a.outcome.FailBefore?
    ensures Exec(State(map[], [], true, []), a, c) == Finished(State(Made(a, c), [], true, []), a)
  {
    var b, m := State(map[], [], true, []), MessagesOf(a, c);
    assert Get(b, a.key) + m == m;
    assert b.store[a.key := m] == map[a.key := m];
    assert ExecAll(b, a.before, c) == b;
    assert Inside(b, a, c) == State(Made(a, c), [], true, []);
  }

  lemma LoneTransaction(a: Action, fails: bool, c: nat)
    ensures Exec(State(map[], [], false, []), Transaction([a], fails), c)
            == End(Exec(State(map[], [], true, []), a, c), fails)
  {
    var b := State(map[], [], true, []);
    assert ExecAll(b, [a], c) == Exec(b, a, c);
  }

  lemma LoneEnd(a: Action, fails: bool, c: nat)
    requires a.Delete?
    ensures
      var m := if c < |a.messages| then a.messages[c] else [];
      var t := End(Finished(State(Made(a, c), [], true, []), a), fails);
      && Get(t, a.key) == (if Found(a) then [] else m)
      && t.sent == if Found(a) && a.outcome.Done? && !fails && m != [] then [m] else []
  {
    var s := State(Made(a, c), [], true, []);
    var u := Finished(s, a);
    if a.outcome.Done? {
      assert [] + [a.late] == [a.late];
      ResolvedStep(u, [], a.late, fails);
      assert End(u, fails) == Fired(s, a.late, fails).(inTx := false);
    } else {
      assert End(u, fails) == Fired(s, a.late, true).(inTx := false);
    }
    assert forall m: seq<Message> :: [] + [m] == [m];
  }

  /** A successful delete outside a transaction sends every client what that client may see. */
  lemma LoneDeleteSends(s: State, a: Action, c: nat)
    requires !s.inTx && s.store == map[] && s.waiting == []
    requires a.Delete? && a.before == a.inside == [] && a.outcome.Done? && Found(a)
    ensures
      var t := Exec(s, a, c);
      && (c < |a.messages| && a.messages[c] != [] ==> t == s.(sent := s.sent + [a.messages[c]]))
      && (c >= |a.messages| || a.messages[c] == [] ==> t == s)
  {
    var m := MessagesOf(a, c);
    assert Get(s, a.key) + m == m;
    assert ExecAll(s, a.before, c) == s;
    var b := DryCached(if a.wrapped then Begin(s) else s, a.key, m);
    assert ExecAll(b, a.inside, c) == b;
    assert Inside(s, a, c) == DryCached(s, a.key, m);
    assert map[a.key := m] - {a.key} == map[];
  }

  // ---- each client for itself -------------------------------------------------------------------------

  /** The action as it is for one client alone: only the messages that it may see. */
  function Only(a: Action, c: nat): Action
    decreases a, 1
  {
    match a
    case Transaction(body, fails) => Transaction(OnlyAll(body, c), fails)
    case Delete(key, late, outcome, messages, before, inside, wrapped) =>
      Delete(key, late, outcome, if c < |messages| then [messages[c]] else [],
             OnlyAll(before, c), OnlyAll(inside, c), wrapped)
  }

  function OnlyAll(actions: seq<Action>, c: nat): seq<Action>
    decreases actions, 0
  {
    if actions == [] then [] else [Only(actions[0], c)] + OnlyAll(actions[1..], c)
  }

  lemma {:induction false} InsideForItself(s: State, a: Action, c: nat)
    requires a.Delete?
    ensures Inside(s, a, c) == Inside(s, Only(a, c), 0)
    decreases a, 1
  {
    var own := a.wrapped && !s.inTx;
    assert MessagesOf(a, c) == MessagesOf(Only(a, c), 0);
    ClientsForThemselves(DryCached(if own then Begin(s) else s, a.key, MessagesOf(a, c)), a.inside, c);
  }

  lemma {:induction false} ClientForItself(s: State, a: Action, c: nat)
    ensures Exec(s, a, c) == Exec(s, Only(a, c), 0)
    decreases a, 2
  {
    hide Inside, Finished, End;
    match a
    case Transaction(body, _) => ClientsForThemselves(if s.inTx then s else Begin(s), body, c);
    case Delete(_, _, _, _, before, _, _) =>
      ClientsForThemselves(s, before, c);
      var s1 := ExecAll(s, before, c);
      InsideForItself(s1, a, c);
      var s2 := if a.outcome.FailBefore? then s1 else Inside(s1, a, c);
      FinishedForItself(s2, a, c);
  }

  lemma FinishedForItself(s: State, a: Action, c: nat)
    requires a.Delete?
    ensures Finished(s, a) == Finished(s, Only(a, c))
  {
  }

  /** Over any run a client's store and what it is sent depend only on the messages that it may
      see itself. */
  lemma {:induction false} ClientsForThemselves(s: State, actions: seq<Action>, c: nat)
    ensures ExecAll(s, actions, c) == ExecAll(s, OnlyAll(actions, c), 0)
    decreases actions, 0
  {
    if actions != [] {
      hide Only, Exec;
      ClientForItself(s, actions[0], c);
      ClientsForThemselves(Exec(s, actions[0], c), actions[1..], c);
      assert OnlyAll(actions, c)[0] == Only(actions[0], c) && OnlyAll(actions, c)[1..] == OnlyAll(actions[1..], c);
    }
  }

  // ---- names that are not kept ------------------------------------------------------------------------

  /** For one delete in a transaction, from what the hooks see: for every client its key goes
      exactly when the collection has kept its name, and its messages are sent exactly when it
      also commits. */
  lemma KeptNamesDecide(made: Sight, late: Sight, outcome: Outcome, ms: seq<seq<Message>>, fails: bool, c: nat)
    requires SameModel(made, late) && RecordKey(made).Some? && !outcome.FailBefore?
    requires c < |ms| && ms[c] != []
    ensures
      var failed := fails || !outcome.Done?;
      var key := RecordKey(made).value;
      var a := Delete(key, LateKey(late, failed), outcome, ms, [], [], false);
      var t := Exec(State(map[], [], false, []), Transaction([a], fails), c);
      var found := NameKept(made, late, failed);
      && Get(t, key) == (if found then [] else ms[c])
      && t.sent == if found && !failed then [ms[c]] else []
  {
    hide Exec, RecordKey, LateKey, NameKept;
    var failed := fails || !outcome.Done?;
    LateKeyAgrees(made, late, failed);
    LoneDelete(Delete(RecordKey(made).value, LateKey(late, failed), outcome, ms, [], [], false), fails, c);
  }

  /** So a plain record's messages are never sent, and its key never goes, when its collection is
      renamed before the transaction of the delete commits. */
  lemma RenamedCollectionKeepsItsKey(id: string, m: seq<Message>)
    requires m != []
    ensures
      var made := Sight(Record("demo", id), [], {});
      var late := Sight(Record("demo_new", id), [], {});
      var a := Delete(DryCacheKey("demo", id), LateKey(late, false), Done, [m], [], [], false);
      var t := Exec(State(map[], [], false, []), Transaction([a], false), 0);
      Get(t, a.key) == m && t.sent == []
  {
    KeptNamesDecide(Sight(Record("demo", id), [], {}), Sight(Record("demo_new", id), [], {}), Done, [m], false, 0);
  }

  /** Nor are those of a custom model whose collection is gone by then. */
  lemma RemovedCollectionKeepsItsKey(id: string, m: seq<Message>)
    requires m != []
    ensures
      var made := Sight(Custom("demo", id), [Cache.Collection("c", "demo", "")], {("demo", id)});
      var late := Sight(Custom("demo", id), [], {});
      var a := Delete(DryCacheKey("demo", id), LateKey(late, false), Done, [m], [], [], false);
      var t := Exec(State(map[], [], false, []), Transaction([a], false), 0);
      RecordKey(made) == Some(a.key) && Get(t, a.key) == m && t.sent == []
  {
    var made := Sight(Custom("demo", id), [Cache.Collection("c", "demo", "")], {("demo", id)});
    assert Cache.EqualFold("demo", "demo");
    KeptNamesDecide(made, Sight(Custom("demo", id), [], {}), Done, [m], false, 0);
  }

  /** Nor are those of a custom model whose table differs in case from its collection's name: it
      is found, but not sent under the name it is stored under. */
  lemma OtherCaseKeepsItsKey(id: string, m: seq<Message>)
    requires m != []
    ensures
      var seen := Sight(Custom("Demo", id), [Cache.Collection("c", "demo", "")], {("demo", id)});
      var a := Delete(DryCacheKey("demo", id), LateKey(seen, false), Done, [m], [], [], false);
      var t := Exec(State(map[], [], false, []), Transaction([a], false), 0);
      RecordKey(seen) == Some(a.key) && Get(t, a.key) == m && t.sent == []
  {
    var seen := Sight(Custom("Demo", id), [Cache.Collection("c", "demo", "")], {("demo", id)});
    assert Cache.EqualFold("demo", "Demo");
    assert "demo"[0] != "Demo"[0];
    KeptNamesDecide(seen, seen, Done, [m], false, 0);
  }

  /** And a custom model whose delete fails after its row is gone, in a transaction that goes on. */
  lemma UnfoundRecordKeepsItsKey(id: string, m: seq<Message>)
    requires m != []
    ensures
      var made := Sight(Custom("demo", id), [Cache.Collection("c", "demo", "")], {("demo", id)});
      var late := made.(rows := {});
      var a := Delete(DryCacheKey("demo", id), LateKey(late, true), FailAfter, [m], [], [], false);
      var t := Exec(State(map[], [], false, []), Transaction([a], false), 0);
      RecordKey(made) == Some(a.key) && Get(t, a.key) == m
  {
    var made := Sight(Custom("demo", id), [Cache.Collection("c", "demo", "")], {("demo", id)});
    assert Cache.EqualFold("demo", "demo");
    KeptNamesDecide(made, made.(rows := {}), FailAfter, [m], false, 0);
  }

  // ---- the messages of committed deletes --------------------------------------------------------------

  /** The messages of the deletes of the key that went well, in the order they were made. */
  function Owed(a: Action, key: Key, c: nat): seq<Message>
    decreases a, 1
  {
    match a
    case Transaction(body, _) => OwedIn(body, key, c)
    case Delete(k, _, outcome, _, before, inside, _) =>
      OwedIn(before, key, c)
      + (if k == key && outcome.Done? then MessagesOf(a, c) else [])
      + (if outcome.FailBefore? then [] else OwedIn(inside, key, c))
  }

  function OwedIn(actions: seq<Action>, key: Key, c: nat): seq<Message>
    decreases actions, 0
  {
    if actions == [] then [] else Owed(actions[0], key, c) + OwedIn(actions[1..], key, c)
  }

  /** Those of them that were made before a delete of the key failed. */
  function Lost(a: Action, key: Key, c: nat): seq<Message>
    decreases a, 1
  {
    match a
    case Transaction(body, _) => LostIn(body, key, c)
    case Delete(k, _, outcome, _, before, inside, _) =>
      if Clears(a, key) then Owed(a, key, c)
      else if !outcome.FailBefore? && FailsIn(inside, key) then
        OwedIn(before, key, c) + (if k == key then MessagesOf(a, c) else []) + LostIn(inside, key, c)
      else LostIn(before, key, c)
  }

  function LostIn(actions: seq<Action>, key: Key, c: nat): seq<Message>
    decreases actions, 0
  {
    if actions == [] then []
    else if FailsIn(actions[1..], key) then Owed(actions[0], key, c) + LostIn(actions[1..], key, c)
    else Lost(actions[0], key, c)
  }

  lemma {:induction false} OwedSplitsBy(a: Action, key: Key, c: nat)
    requires AllFound(a)
    ensures Owed(a, key, c) == Lost(a, key, c) + Since(a, key, c)
    ensures !Fails(a, key) ==> Lost(a, key, c) == []
    decreases a, 1
  {
    match a
    case Transaction(body, _) => OwedSplits(body, key, c);
    case Delete(_, _, _, _, before, inside, _) =>
      OwedSplits(before, key, c);
      OwedSplits(inside, key, c);
  }

  /** In an open transaction what the successful deletes of a key owe splits into what later
      failures lost and what is held; nothing is lost unless one failed. */
  lemma {:induction false} OwedSplits(actions: seq<Action>, key: Key, c: nat)
    requires AllFoundIn(actions)
    ensures OwedIn(actions, key, c) == LostIn(actions, key, c) + SinceIn(actions, key, c)
    ensures !FailsIn(actions, key) ==> LostIn(actions, key, c) == []
    decreases actions, 0
  {
    if actions != [] {
      OwedSplitsBy(actions[0], key, c);
      OwedSplits(actions[1..], key, c);
    }
  }

  /** So a committed transaction over an empty store holds, and sends, exactly what its deletes of
      a key owe if and only if none of it was made before such a delete failed. */
  lemma CommittedMessagesLostExactly(s: State, body: seq<Action>, c: nat, key: Key)
    requires !s.inTx && s.store == map[] && AllFoundIn(body)
    ensures Get(ExecAll(Begin(s), body, c), key) == OwedIn(body, key, c) <==> LostIn(body, key, c) == []
  {
    OpenContents(Begin(s), body, c, key);
    OwedSplits(body, key, c);
    var held := Get(ExecAll(Begin(s), body, c), key);
    assert held == [] + SinceIn(body, key, c) == SinceIn(body, key, c);
    assert |OwedIn(body, key, c)| == |LostIn(body, key, c)| + |held|;
    assert LostIn(body, key, c) == [] ==> [] + held == held;
  }

  /** Such a run: a second delete of the record fails in the same transaction and takes the
      messages of the first with it, although that one commits. */
  lemma FailedRepeatLosesMessages(key: Key, m: seq<Message>)
    requires m != []
    ensures
      var first := Delete(key, Some(key), Done, [m], [], [], false);
      var second := Delete(key, Some(key), FailBefore, [m], [], [], false);
      var s := State(map[], [], false, []);
      && Exec(s, Transaction([first], false), 0).sent == [m]
      && Exec(s, Transaction([first, second], false), 0).sent == []
  {
    var first := Delete(key, Some(key), Done, [m], [], [], false);
    var second := Delete(key, Some(key), FailBefore, [m], [], [], false);
    var s := State(map[], [], false, []);
    var b, hook := Begin(s), Some(key);
    var s1 := b.(store := map[key := m], waiting := [hook]);
    assert Inside(b, first, 0) == b.(store := map[key := m]) by {
      assert Get(b, key) + m == m;
      assert b.store[key := m] == map[key := m];
    }
    assert Exec(b, first, 0) == s1;
    assert ExecAll(b, [first], 0) == s1;
    assert [] + [hook] == [hook];
    ResolvedStep(s1, [], hook, false);
    assert End(s1, false).sent == [m];
    var s2 := s1.(store := map[]);
    assert map[key := m] - {key} == map[];
    assert Exec(s1, second, 0) == s2;
    assert ExecAll(s1, [second], 0) == s2;
    assert [first, second][1..] == [second];
    assert ExecAll(b, [first, second], 0) == s2;
    ResolvedStep(s2, [], hook, false);
    assert End(s2, false).sent == [];
  }

  // ---- the code ---------------------------------------------------------------------------------------

  class Client {
    var store: map<Key, seq<Message>>
    var sent: seq<seq<Message>>

    constructor ()
      ensures store == map[] && sent == []
    {
      store, sent := map[], [];
    }

    /** Each message is appended to those the store holds under the key. */
    method DryCache(key: Key, messages: seq<Message>)
      modifies `store
      ensures store == if messages == [] then old(store)
                       else old(store)[key := (if key in old(store) then old(store)[key] else []) + messages]
    {
      ghost var was := if key in store then store[key] else [];
      for i := 0 to |messages|
        invariant store == if i == 0 then old(store) else old(store)[key := was + messages[..i]]
      {
        var before := if key in store then store[key] else [];
        store := store[key := before + [messages[i]]];
        assert was + messages[..i] + [messages[i]] == was + messages[..i + 1];
        assert i == 0 ==> messages[..i] == [] && was + [messages[i]] == was + messages[..i + 1];
      }
      assert messages[..|messages|] == messages;
    }

    /** One goroutine sends the messages of a key one after the other. */
    method SendAll(messages: seq<Message>)
      modifies `sent
      ensures sent == old(sent) + [messages]
    {
      var batch := [];
      for i := 0 to |messages|
        invariant batch == messages[..i]
      {
        batch := batch + [messages[i]];
        assert messages[..i + 1] == messages[..i] + [messages[i]];
      }
      assert messages[..|messages|] == messages;
      sent := sent + [batch];
    }
  }

  /** The application handle with the connected clients. */
  class App {
    const clients: seq<Client>
    var inTx: bool
    var waiting: seq<Option<Key>>

    constructor (clients: seq<Client>)
      ensures this.clients == clients && !inTx && waiting == []
    {
      this.clients := clients;
      inTx, waiting := false, [];
    }

    ghost predicate Valid()
      reads this
    {
      forall i, j :: 0 <= i < j < |clients| ==> clients[i] != clients[j]
    }

    ghost function View(c: nat): State
      requires c < |clients|
      reads this, clients
    {
      State(clients[c].store, clients[c].sent, inTx, waiting)
    }

    /** realtimeBroadcastRecord with dryCache set: each client gets the messages that the rules of
        its own subscriptions let through. */
    method DryCacheRecord(key: Key, a: Action)
      requires Valid() && a.Delete?
      modifies clients
      ensures forall c :: 0 <= c < |clients| ==>
                View(c) == DryCached(old(View(c)), key, if c < |a.messages| then a.messages[c] else [])
    {
      for k := 0 to |clients|
        invariant forall c :: 0 <= c < k ==> View(c) == DryCached(old(View(c)), key, MessagesOf(a, c))
        invariant forall c :: k <= c < |clients| ==> View(c) == old(View(c))
      {
        var client := clients[k];
        client.DryCache(key, MessagesOf(a, k));
        assert View(k).store == DryCached(old(View(k)), key, MessagesOf(a, k)).store;
      }
    }

    method BroadcastDryCacheKey(key: Key)
      requires Valid()
      modifies clients
      ensures forall c :: 0 <= c < |clients| ==> View(c) == Broadcast(old(View(c)), key)
    {
      for k := 0 to |clients|
        invariant forall c :: 0 <= c < k ==> View(c) == Broadcast(old(View(c)), key)
        invariant forall c :: k <= c < |clients| ==> View(c) == old(View(c))
      {
        var client := clients[k];
        if key in client.store {
          var messages := client.store[key];
          client.store := client.store - {key};
          client.SendAll(messages);
        }
      }
    }

    method UnsetDryCacheKey(key: Key)
      requires Valid()
      modifies clients
      ensures forall c :: 0 <= c < |clients| ==> View(c) == Unset(old(View(c)), key)
    {
      for k := 0 to |clients|
        invariant forall c :: 0 <= c < k ==> View(c) == Unset(old(View(c)), key)
        invariant forall c :: k <= c < |clients| ==> View(c) == old(View(c))
      {
        var client := clients[k];
        if key in client.store {
          client.store := client.store - {key};
        }
        assert View(k).store == Unset(old(View(k)), key).store;
      }
    }

    /** The after-hook of a delete; it does nothing when it finds no record or collection. */
    method Fire(hook: Option<Key>, failed: bool)
      requires Valid()
      modifies clients
      ensures forall c :: 0 <= c < |clients| ==> View(c) == Fired(old(View(c)), hook, failed)
    {
      if hook.Some? {
        if failed {
          UnsetDryCacheKey(hook.value);
        } else {
          BroadcastDryCacheKey(hook.value);
        }
      }
    }

    method BeginTransaction()
      modifies this
      ensures inTx && waiting == []
    {
      inTx, waiting := true, [];
    }

    /** Runs the hooks that waited, success or error ones, in the order they were registered. */
    method EndTransaction(failed: bool)
      requires Valid()
      modifies this, clients
      ensures forall c :: 0 <= c < |clients| ==> View(c) == End(old(View(c)), failed)
      ensures !inTx && waiting == []
    {
      for i := 0 to |waiting|
        invariant waiting == old(waiting) && inTx == old(inTx)
        invariant forall c :: 0 <= c < |clients| ==> View(c) == Resolved(old(View(c)), waiting[..i], failed)
      {
        label hook:
        Fire(waiting[i], failed);
        assert waiting[..i + 1] == waiting[..i] + [waiting[i]];
        forall c | 0 <= c < |clients| ensures View(c) == Resolved(old(View(c)), waiting[..i + 1], failed) {
          ResolvedStep(old(View(c)), waiting[..i], waiting[i], failed);
          assert old@hook(View(c)) == Resolved(old(View(c)), waiting[..i], failed);
        }
      }
      assert waiting[..|waiting|] == waiting;
      inTx, waiting := false, [];
    }

    method RunInTransaction(body: seq<Action>, fails: bool)
      requires Valid() && (!inTx ==> waiting == [])
      modifies this, clients
      ensures forall c :: 0 <= c < |clients| ==> View(c) == Exec(old(View(c)), Transaction(body, fails), c)
      ensures inTx == old(inTx) && (!inTx ==> waiting == [])
      decreases body, 1
    {
      if inTx {
        RunAll(body);
      } else {
        BeginTransaction();
        RunAll(body);
        EndTransaction(fails);
      }
    }

    /** Delete of a record, with the realtime hooks around it. */
    method Run(a: Action)
      requires Valid() && a.Delete? && (!inTx ==> waiting == [])
      modifies this, clients
      ensures forall c :: 0 <= c < |clients| ==> View(c) == Exec(old(View(c)), a, c)
      ensures inTx == old(inTx) && (!inTx ==> waiting == [])
      decreases a, 2
    {
      RunAll(a.before);
      if !a.outcome.FailBefore? {
        RunInside(a);
      }
      if a.outcome.Done? && inTx {
        waiting := waiting + [a.late];
      } else {
        Fire(a.late, !a.outcome.Done?);
      }
    }

    method RunInside(a: Action)
      requires Valid() && a.Delete? && (!inTx ==> waiting == [])
      modifies this, clients
      ensures forall c :: 0 <= c < |clients| ==> View(c) == Inside(old(View(c)), a, c)
      ensures inTx == old(inTx) && (!inTx ==> waiting == [])
      decreases a, 1
    {
      var own := a.wrapped && !inTx;
      if own {
        BeginTransaction();
      }
      DryCacheRecord(a.key, a);
      RunAll(a.inside);
      if own {
        EndTransaction(a.outcome.FailAfter?);
      }
    }

    method RunAll(actions: seq<Action>)
      requires Valid() && (!inTx ==> waiting == [])
      modifies this, clients
      ensures forall c :: 0 <= c < |clients| ==> View(c) == ExecAll(old(View(c)), actions, c)
      ensures inTx == old(inTx) && (!inTx ==> waiting == [])
      decreases actions, 0
    {
      if actions != [] {
        if actions[0].Transaction? {
          RunInTransaction(actions[0].body, actions[0].fails);
        } else {
          Run(actions[0]);
        }
        RunAll(actions[1..]);
      }
    }
  }
}
