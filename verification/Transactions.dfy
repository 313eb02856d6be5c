/** Model writes, flat transactions and deferred after-hooks (core/db_tx.go, core/db.go,
    core/db_model.go). A run is a tree of saves, deletes and transactions: what the hooks of a
    save do before and after its write are again actions, and so is the body of a transaction. */
module Transactions {

  datatype Kind = Create | Update | Delete

  /** How the hook chain of an operation ends: an error before the write, an error after it, or none. */
  datatype Outcome = FailBefore | FailAfter | Done

  /** `wrapped`: a hook runs the write and what follows it in RunInTransaction.
      `hookFails`: the after-hook itself returns an error. */
  datatype Action =
    | Save(model: nat, outcome: Outcome, before: seq<Action>, after: seq<Action>, wrapped: bool, hookFails: bool)
    | Remove(model: nat, outcome: Outcome, before: seq<Action>, after: seq<Action>, wrapped: bool, hookFails: bool)
    | Transaction(body: seq<Action>, fails: bool)

  datatype Model = Model(id: string, lastSavedPK: string) {
    predicate IsNew() { lastSavedPK == "" }
  }

  /** One operation: the how-manieth call it is, and on which model. */
  datatype Call = Call(number: nat, kind: Kind, model: nat, hookFails: bool)

  datatype Hook = Hook(call: Call, success: bool)

  /** `rows` is what the current database handle sees; `base` what a rollback returns to. */
  datatype State = State(models: seq<Model>, rows: set<string>, inTx: bool, base: set<string>,
                         deferred: seq<Call>, fired: seq<Hook>, calls: nat)

  // ---- the specification ------------------------------------------------------------------------------

  function Marked(models: seq<Model>, m: nat, pk: string): (r: seq<Model>)
    ensures |r| == |models|
  {
    if m < |models| then models[m := models[m].(lastSavedPK := pk)] else models
  }

  function Resolved(calls: seq<Call>, success: bool): (r: seq<Hook>)
    ensures |r| == |calls|
    ensures forall i :: 0 <= i < |calls| ==> r[i] == Hook(calls[i], success)
  {
    seq(|calls|, i requires 0 <= i < |calls| => Hook(calls[i], success))
  }

  /** The after-functions of creates mark their models as new again when the transaction failed. */
  function Unmarked(models: seq<Model>, calls: seq<Call>): (r: seq<Model>)
    ensures |r| == |models|
  {
    if calls == [] then models
    else
      var init := Unmarked(models, calls[..|calls| - 1]);
      var c := calls[|calls| - 1];
      if c.kind.Create? then Marked(init, c.model, "") else init
  }

  /** One registered completion, and a run of them. */
  function CompletedOne(s: State, c: Call, failed: bool): State {
    s.(models := if failed && c.kind.Create? then Marked(s.models, c.model, "") else s.models,
       fired := s.fired + [Hook(c, !failed)])
  }

  function Completed(s: State, calls: seq<Call>, failed: bool): State {
    s.(models := if failed then Unmarked(s.models, calls) else s.models,
       fired := s.fired + Resolved(calls, !failed))
  }

  function Begin(s: State): State {
    s.(inTx := true, base := s.rows, deferred := [])
  }

  function End(s: State, failed: bool): State {
    Completed(s, s.deferred, failed).(
      inTx := false, base := {}, rows := if failed then s.base else s.rows, deferred := [])
  }

  /** The write itself; false when the model or the database refuses it. */
  function Write(s: State, kind: Kind, m: nat): (State, bool)
    requires m < |s.models|
  {
    match kind
    case Create =>
      var id := s.models[m].id;
      if id == "" || id in s.rows then (s, false)
      else (s.(rows := s.rows + {id}, models := Marked(s.models, m, id)), true)
    case Update => (s, s.models[m].id == s.models[m].lastSavedPK)
    case Delete => (s.(rows := s.rows - {s.models[m].lastSavedPK}), true)
  }

  function Failed(s: State, c: Call): (r: State)
    ensures |r.models| == |s.models|
  {
    s.(models := if c.kind.Create? then Marked(s.models, c.model, "") else s.models,
       fired := s.fired + [Hook(c, false)])
  }

  /** Outside a transaction the success hook fires at once, inside one it waits for the end. */
  function Succeeded(s: State, c: Call): State {
    if s.inTx then s.(deferred := s.deferred + [c]) else s.(fired := s.fired + [Hook(c, true)])
  }

  predicate SomeHookFails(calls: seq<Call>) {
    exists i :: 0 <= i < |calls| && calls[i].hookFails
  }

  /** The write and the rest of the chain, in their own transaction if the hooks opened one. */
  function Body(s: State, c: Call, a: Action): (r: (State, bool))
    requires !a.Transaction? && c.model < |s.models|
    ensures |r.0.models| == |s.models|
    decreases a, 1
  {
    var own := a.wrapped && !s.inTx;
    var (s2, written) := Write(if own then Begin(s) else s, c.kind, c.model);
    var s3 := if written then ExecAll(s2, a.after) else s2;
    var done := written && a.outcome.Done?;
    if own then (End(s3, !done), done && !SomeHookFails(s3.deferred)) else (s3, done)
  }

  /** What the hooks did before the write. */
  function Prepared(s: State, a: Action): (r: State)
    requires !a.Transaction?
    ensures |r.models| == |s.models|
    decreases a, 1
  {
    ExecAll(s.(calls := s.calls + 1), a.before)
  }

  predicate Refused(s: State, kind: Kind, a: Action)
    requires !a.Transaction? && a.model < |s.models|
  {
    a.outcome.FailBefore? || (kind.Delete? && s.models[a.model].IsNew())
  }

  function KindOf(s: State, a: Action): Kind
    requires !a.Transaction? && a.model < |s.models|
  {
    if a.Remove? then Delete else if s.models[a.model].IsNew() then Create else Update
  }

  function CallOf(s: State, a: Action): Call
    requires !a.Transaction? && a.model < |s.models|
  {
    Call(s.calls, KindOf(s, a), a.model, a.hookFails)
  }

  function Operation(s: State, a: Action): (r: (State, bool))
    requires !a.Transaction? && a.model < |s.models|
    ensures |r.0.models| == |s.models|
    decreases a, 2
  {
    var c := CallOf(s, a);
    var s1 := Prepared(s, a);
    if Refused(s1, c.kind, a) then (Failed(s1, c), false)
    else
      var (s2, ok) := Body(s1, c, a);
      if !ok then (Failed(s2, c), false)
      else (Succeeded(s2, c), s2.inTx || !a.hookFails)
  }

  /** The new state, and whether the call returned without an error. */
  function Exec(s: State, a: Action): (r: (State, bool))
    ensures |r.0.models| == |s.models|
    decreases a, 3
  {
    if a.Transaction? then
      if s.inTx then (ExecAll(s, a.body), !a.fails)
      else
        var s1 := ExecAll(Begin(s), a.body);
        (End(s1, a.fails), !a.fails && !SomeHookFails(s1.deferred))
    else if a.model >= |s.models| then (s, false)
    else Operation(s, a)
  }

  function ExecAll(s: State, actions: seq<Action>): (r: State)
    ensures |r.models| == |s.models|
    decreases actions, 0
  {
    if actions == [] then s
    else ExecAll(Exec(s, actions[0]).0, actions[1..])
  }

  // ---- one hook per call ------------------------------------------------------------------------------

  /** How often hooks of the call with this number have fired, and how often they wait. */
  function TimesFired(hooks: seq<Hook>, n: nat): nat {
    if hooks == [] then 0
    else TimesFired(hooks[..|hooks| - 1], n) + if hooks[|hooks| - 1].call.number == n then 1 else 0
  }

  function TimesWaiting(calls: seq<Call>, n: nat): nat {
    if calls == [] then 0
    else TimesWaiting(calls[..|calls| - 1], n) + if calls[|calls| - 1].number == n then 1 else 0
  }

  function Times(s: State, n: nat): nat {
    TimesFired(s.fired, n) + TimesWaiting(s.deferred, n)
  }

  /** Each number of a call made from `s` on counts once more in `t`, and no other number does. */
  ghost predicate Accounts(s: State, t: State) {
    && s.calls <= t.calls
    && forall n: nat :: Times(t, n) == Times(s, n) + if s.calls <= n < t.calls then 1 else 0
  }

  /** From `s` to `t` every new call got exactly one hook and no old call got another one. */
  ghost predicate OneHookEach(s: State, t: State) {
    && t.inTx == s.inTx
    && (!t.inTx ==> t.deferred == [])
    && Accounts(s, t)
  }

  lemma AccountsChain(s: State, t: State, u: State)
    requires Accounts(s, t) && Accounts(t, u)
    ensures Accounts(s, u)
  {
    hide Times;
  }

  lemma FiringCounts(s: State, c: Call, success: bool, n: nat)
    ensures TimesFired(s.fired + [Hook(c, success)], n) == TimesFired(s.fired, n) + if c.number == n then 1 else 0
    ensures TimesWaiting(s.deferred + [c], n) == TimesWaiting(s.deferred, n) + if c.number == n then 1 else 0
  {
    assert (s.fired + [Hook(c, success)])[..|s.fired|] == s.fired;
    assert (s.deferred + [c])[..|s.deferred|] == s.deferred;
  }

  lemma {:induction false} ResolvingCounts(fired: seq<Hook>, calls: seq<Call>, success: bool, n: nat)
    ensures TimesFired(fired + Resolved(calls, success), n) == TimesFired(fired, n) + TimesWaiting(calls, n)
  {
    var hooks := fired + Resolved(calls, success);
    if calls == [] {
      assert hooks == fired;
    } else {
      ResolvingCounts(fired, calls[..|calls| - 1], success, n);
      assert hooks[..|hooks| - 1] == fired + Resolved(calls[..|calls| - 1], success);
    }
  }

  lemma EndCounts(s: State, failed: bool)
    ensures Accounts(s, End(s, failed))
  {
    forall n: nat ensures Times(End(s, failed), n) == Times(s, n) {
      ResolvingCounts(s.fired, s.deferred, !failed, n);
    }
  }

  /** One operation adds exactly its own number to those of the calls its hooks made. */
  lemma {:induction false} OneHookPerOperation(s: State, a: Action)
    requires !s.inTx ==> s.deferred == []
    requires !a.Transaction? && a.model < |s.models|
    ensures OneHookEach(s, Operation(s, a).0)
    decreases a, 2
  {
    hide Times, Accounts, Unmarked, Resolved;
    var c := CallOf(s, a);
    var s0 := s.(calls := s.calls + 1);
    var s1 := Prepared(s, a);
    OneHookPerCallAll(s0, a.before);
    assert OneHookEach(s0, s1);
    var s2 := if Refused(s1, c.kind, a) then s1 else Body(s1, c, a).0;
    assert OneHookEach(s0, s2) by {
      if !Refused(s1, c.kind, a) {
        OneHookPerBody(s1, c, a);
        AccountsChain(s0, s1, s2);
      }
    }
    CountedIn(s, s2, c);
  }

  lemma CountedIn(s: State, t: State, c: Call)
    requires OneHookEach(s.(calls := s.calls + 1), t)
    requires c.number == s.calls
    ensures Failed(t, c).inTx == t.inTx == Succeeded(t, c).inTx
    ensures OneHookEach(s, Failed(t, c)) && OneHookEach(s, Succeeded(t, c))
  {
    hide TimesFired, TimesWaiting;
    forall n: nat
      ensures Times(Failed(t, c), n) == Times(t, n) + (if c.number == n then 1 else 0) == Times(Succeeded(t, c), n)
    {
      FiringCounts(t, c, false, n);
      FiringCounts(t, c, true, n);
    }
    var s0 := s.(calls := s.calls + 1);
    assert forall n: nat :: Times(s0, n) == Times(s, n);
    hide Times;
  }

  lemma WriteCounts(s: State, kind: Kind, m: nat)
    requires m < |s.models|
    requires !s.inTx ==> s.deferred == []
    ensures Accounts(s, Write(s, kind, m).0)
    ensures !s.inTx ==> Accounts(s, Write(Begin(s), kind, m).0)
  {
  }

  lemma {:induction false} OneHookPerBody(s: State, c: Call, a: Action)
    requires !s.inTx ==> s.deferred == []
    requires !a.Transaction? && c.model < |s.models|
    ensures OneHookEach(s, Body(s, c, a).0)
    decreases a, 1
  {
    hide Times, Accounts, Resolved, Unmarked, SomeHookFails;
    var own := a.wrapped && !s.inTx;
    var (s2, written) := Write(if own then Begin(s) else s, c.kind, c.model);
    WriteCounts(s, c.kind, c.model);
    if written {
      OneHookPerCallAll(s2, a.after);
      AccountsChain(s, s2, ExecAll(s2, a.after));
    }
    var s3 := if written then ExecAll(s2, a.after) else s2;
    var s4 := End(s3, !(written && a.outcome.Done?));
    EndCounts(s3, !(written && a.outcome.Done?));
    AccountsChain(s, s3, s4);
  }

  lemma {:induction false} OneHookPerCall(s: State, a: Action)
    requires !s.inTx ==> s.deferred == []
    ensures OneHookEach(s, Exec(s, a).0)
    decreases a, 3
  {
    if !a.Transaction? {
      if a.model < |s.models| {
        OneHookPerOperation(s, a);
      }
    } else if s.inTx {
      OneHookPerCallAll(s, a.body);
    } else {
      OneHookPerCallAll(Begin(s), a.body);
      EndCounts(ExecAll(Begin(s), a.body), a.fails);
    }
  }

  /** Over any run every create, update and delete fires exactly one of its two after-hooks,
      or still waits to fire it when the transaction is open. */
  lemma {:induction false} OneHookPerCallAll(s: State, actions: seq<Action>)
    requires !s.inTx ==> s.deferred == []
    ensures OneHookEach(s, ExecAll(s, actions))
    decreases actions, 0
  {
    if actions != [] {
      var t := Exec(s, actions[0]).0;
      OneHookPerCall(s, actions[0]);
      OneHookPerCallAll(t, actions[1..]);
      AccountsChain(s, t, ExecAll(s, actions));
    }
  }

  // ---- inside an open transaction ---------------------------------------------------------------------

  predicate Creates(calls: seq<Call>, m: nat) {
    exists i :: 0 <= i < |calls| && calls[i].kind.Create? && calls[i].model == m
  }

  function Added(s: State, t: State): seq<Call> {
    if |s.deferred| <= |t.deferred| then t.deferred[|s.deferred|..] else []
  }

  /** A model's flag moves only together with a waiting create, and only a new model is created. */
  ghost predicate FlagFollows(s: State, t: State, m: nat)
    requires m < |s.models| == |t.models|
  {
    && t.models[m].id == s.models[m].id
    && (Creates(Added(s, t), m) ==> s.models[m].IsNew())
    && (t.models[m] == s.models[m] || Creates(Added(s, t), m))
  }

  /** What a transaction that stays open lets its calls do: append to the waiting hooks, fire
      error hooks. */
  ghost predicate Within(s: State, t: State) {
    && s.inTx && t.inTx && t.base == s.base && |t.models| == |s.models|
    && s.deferred <= t.deferred && s.fired <= t.fired
    && (forall i :: |s.fired| <= i < |t.fired| ==> !t.fired[i].success)
    && (forall m :: 0 <= m < |s.models| ==> FlagFollows(s, t, m))
  }

  lemma CreatesJoin(a: seq<Call>, b: seq<Call>, m: nat)
    ensures Creates(a + b, m) <==> Creates(a, m) || Creates(b, m)
  {
    if Creates(a, m) {
      var i :| 0 <= i < |a| && a[i].kind.Create? && a[i].model == m;
      assert (a + b)[i] == a[i];
    }
    if Creates(b, m) {
      var i :| 0 <= i < |b| && b[i].kind.Create? && b[i].model == m;
      assert (a + b)[|a| + i] == b[i];
    }
  }

  lemma WithinChain(s: State, t: State, u: State)
    requires Within(s, t) && Within(t, u)
    ensures Within(s, u)
  {
    assert Added(s, u) == Added(s, t) + Added(t, u);
    forall m | 0 <= m < |s.models| ensures FlagFollows(s, u, m) {
      CreatesJoin(Added(s, t), Added(t, u), m);
      assert FlagFollows(s, t, m) && FlagFollows(t, u, m);
    }
  }

  lemma {:induction false} StaysWithin(s: State, a: Action)
    requires s.inTx
    ensures Within(s, Exec(s, a).0)
    decreases a, 3
  {
    if !a.Transaction? {
      if a.model < |s.models| {
        OperationWithin(s, a);
      }
    } else {
      StaysWithinAll(s, a.body);
    }
  }

  /** While a transaction is open only error hooks fire, hooks of successful calls queue up in
      order (nested transactions included), and no flag moves without a waiting create. */
  lemma {:induction false} StaysWithinAll(s: State, actions: seq<Action>)
    requires s.inTx
    ensures Within(s, ExecAll(s, actions))
    decreases actions, 0
  {
    if actions != [] {
      var t := Exec(s, actions[0]).0;
      StaysWithin(s, actions[0]);
      StaysWithinAll(t, actions[1..]);
      WithinChain(s, t, ExecAll(s, actions));
    }
  }

  /** The same without a word on the flag of model `m`, which a running create holds. */
  ghost predicate WithinExcept(s: State, t: State, m: nat)
    requires m < |s.models|
  {
    && s.inTx && t.inTx && t.base == s.base && |t.models| == |s.models|
    && s.deferred <= t.deferred && s.fired <= t.fired
    && (forall i :: |s.fired| <= i < |t.fired| ==> !t.fired[i].success)
    && (forall k :: 0 <= k < |s.models| && k != m ==> FlagFollows(s, t, k))
    && t.models[m].id == s.models[m].id
    && (Creates(Added(s, t), m) ==> s.models[m].IsNew())
  }

  lemma WithinExceptChain(s: State, s1: State, s2: State, s3: State, c: Call)
    requires Within(s, s1) && Within(s2, s3) && c.model < |s.models|
    requires c.kind.Create? && (s2, true) == Write(s1, Create, c.model)
    ensures WithinExcept(s, s3, c.model)
  {
    var m := c.model;
    assert Added(s, s3) == Added(s, s1) + Added(s2, s3);
    forall k | 0 <= k < |s.models| && k != m ensures FlagFollows(s, s3, k) {
      CreatesJoin(Added(s, s1), Added(s2, s3), k);
      assert FlagFollows(s, s1, k) && FlagFollows(s2, s3, k);
    }
    CreatesJoin(Added(s, s1), Added(s2, s3), m);
    assert FlagFollows(s, s1, m) && FlagFollows(s2, s3, m);
  }

  lemma CreateEnds(s: State, t: State, c: Call)
    requires c.model < |s.models| && WithinExcept(s, t, c.model)
    requires c.kind.Create? && s.models[c.model].IsNew()
    ensures Within(s, Failed(t, c)) && Within(s, Succeeded(t, c))
  {
    var f, d := Failed(t, c), Succeeded(t, c);
    assert Added(s, f) == Added(s, t);
    assert Added(s, d) == Added(s, t) + [c];
    assert Creates([c], c.model) by { assert [c][0] == c; }
    forall k | 0 <= k < |s.models| ensures FlagFollows(s, f, k) && FlagFollows(s, d, k) {
      CreatesJoin(Added(s, t), [c], k);
      if k != c.model {
        assert FlagFollows(s, t, k);
      }
    }
  }

  lemma OtherEnds(s: State, t: State, c: Call)
    requires Within(s, t) && !c.kind.Create?
    ensures Within(s, Failed(t, c)) && Within(s, Succeeded(t, c))
  {
    var f, d := Failed(t, c), Succeeded(t, c);
    assert Added(s, f) == Added(s, t);
    assert Added(s, d) == Added(s, t) + [c];
    forall k | 0 <= k < |s.models| ensures FlagFollows(s, f, k) && FlagFollows(s, d, k) {
      CreatesJoin(Added(s, t), [c], k);
      assert FlagFollows(s, t, k);
    }
  }

  lemma WithinRenumbered(s: State, calls: nat, t: State)
    requires Within(s.(calls := calls), t)
    ensures Within(s, t)
  {
    assert Added(s, t) == Added(s.(calls := calls), t);
    forall m | 0 <= m < |s.models| ensures FlagFollows(s, t, m) {
      assert FlagFollows(s.(calls := calls), t, m);
    }
  }

  lemma WriteWithin(s: State, kind: Kind, m: nat)
    requires s.inTx && m < |s.models| && !kind.Create?
    ensures Within(s, Write(s, kind, m).0)
  {
    var t := Write(s, kind, m).0;
    assert forall k :: 0 <= k < |s.models| ==> FlagFollows(s, t, k);
  }

  lemma {:induction false} OperationWithin(s: State, a: Action)
    requires s.inTx && !a.Transaction? && a.model < |s.models|
    ensures Within(s, Operation(s, a).0)
    decreases a, 2
  {
    hide Within;
    var c := CallOf(s, a);
    var s1 := Prepared(s, a);
    var s0 := s.(calls := s.calls + 1);
    StaysWithinAll(s0, a.before);
    WithinRenumbered(s, s.calls + 1, s1);
    assert s1.inTx && |s1.models| == |s.models| by { WithinShape(s, s1); }
    var (s2, written) := Write(s1, c.kind, c.model);
    if Refused(s1, c.kind, a) {
      EndsWithin(s, s1, c);
    } else if !written {
      assert Body(s1, c, a) == (s1, false);
      EndsWithin(s, s1, c);
    } else {
      var s3 := ExecAll(s2, a.after);
      assert s2.inTx;
      StaysWithinAll(s2, a.after);
      assert Body(s1, c, a) == (s3, a.outcome.Done?);
      if c.kind.Create? {
        WithinExceptChain(s, s1, s2, s3, c);
        CreateEnds(s, s3, c);
      } else {
        WriteWithin(s1, c.kind, c.model);
        WithinChain(s, s1, s2);
        WithinChain(s, s2, s3);
        OtherEnds(s, s3, c);
      }
      assert s3.inTx by { WithinShape(s2, s3); }
    }
  }

  lemma WithinShape(s: State, t: State)
    requires Within(s, t)
    ensures t.inTx && |t.models| == |s.models|
  {
  }

  lemma EndsWithin(s: State, t: State, c: Call)
    requires Within(s, t) && c.model < |s.models|
    requires c.kind.Create? ==> s.models[c.model].IsNew()
    ensures Within(s, Failed(t, c)) && Within(s, Succeeded(t, c))
  {
    assert FlagFollows(s, t, c.model);
    if c.kind.Create? {
      CreateEnds(s, t, c);
    } else {
      OtherEnds(s, t, c);
    }
  }

  /** A nested transaction is part of the open one: what is left of the body goes on in the state
      its steps leave, also after it failed. */
  lemma NestedRunsFlat(s: State, first: Action, body: seq<Action>, fails: bool)
    requires s.inTx
    ensures
      var (t, ok) := Exec(s, Transaction([first] + body, fails));
      && ok == !fails && t.inTx && t.base == s.base
      && t == Exec(Exec(s, first).0, Transaction(body, fails)).0
  {
    assert ([first] + body)[1..] == body;
    StaysWithin(s, first);
    StaysWithinAll(s, [first] + body);
  }

  // ---- the end of a transaction -----------------------------------------------------------------------

  lemma {:induction false} UnmarkedAt(models: seq<Model>, calls: seq<Call>, m: nat)
    requires m < |models|
    ensures Unmarked(models, calls)[m] == if Creates(calls, m) then models[m].(lastSavedPK := "") else models[m]
  {
    if calls != [] {
      var n := |calls| - 1;
      UnmarkedAt(models, calls[..n], m);
      assert calls == calls[..n] + [calls[n]];
      CreatesJoin(calls[..n], [calls[n]], m);
      assert [calls[n]][0] == calls[n];
    }
  }

  /** A failed transaction leaves the rows and every model as it found them, whatever its body
      did, and every hook of its calls is an error hook. */
  lemma RollbackRestores(s: State, body: seq<Action>)
    requires !s.inTx
    ensures var t := Exec(s, Transaction(body, true)).0;
      && t.rows == s.rows && t.models == s.models && !t.inTx && t.deferred == []
      && s.fired <= t.fired && forall i :: |s.fired| <= i < |t.fired| ==> !t.fired[i].success
  {
    var b := Begin(s);
    var u := ExecAll(b, body);
    StaysWithinAll(b, body);
    var t := Exec(s, Transaction(body, true)).0;
    forall m | 0 <= m < |s.models| ensures t.models[m] == s.models[m] {
      assert FlagFollows(b, u, m);
      assert Added(b, u) == u.deferred;
      UnmarkedAt(u.models, u.deferred, m);
    }
  }

  /** The hooks of a transaction: error hooks while it is open, then those that waited, once
      each, in the order they were registered, all successes exactly when it committed. */
  lemma HooksOfTransaction(s: State, body: seq<Action>, fails: bool)
    requires !s.inTx
    ensures
      var u := ExecAll(Begin(s), body);
      var (t, ok) := Exec(s, Transaction(body, fails));
      && s.fired <= u.fired
      && (forall i :: |s.fired| <= i < |u.fired| ==> !u.fired[i].success)
      && t.fired == u.fired + Resolved(u.deferred, !fails)
      && t.deferred == [] && !t.inTx
      && t.rows == (if fails then s.rows else u.rows)
      && (ok <==> !fails && forall i :: 0 <= i < |u.deferred| ==> !u.deferred[i].hookFails)
  {
    StaysWithinAll(Begin(s), body);
  }

  // ---- new flags once a transaction has committed -----------------------------------------------------

  /** From `s` to `t` a create of the model began to wait, and yet the model is new. */
  predicate Lies(s: State, t: State, m: nat)
    requires m < |t.models|
  {
    Creates(Added(s, t), m) && t.models[m].IsNew()
  }

  /** The insert of a create goes through: its hooks fail at no point, and the id is there and free. */
  predicate Inserts(p: State, a: Action)
    requires a.Save? && a.model < |p.models|
  {
    a.outcome.Done? && p.models[a.model].id != "" && p.models[a.model].id !in p.rows
  }

  /** The action loses the flag of a model created in it: a create fails although its own hooks
      created the model before, and no later action creates it again. */
  predicate Loses(s: State, a: Action, m: nat)
    requires m < |s.models|
    decreases a, 2
  {
    if a.Transaction? then LosesAll(s, a.body, m)
    else if a.model >= |s.models| then false
    else
      var p := Prepared(s, a);
      if a.Save? && a.model == m && s.models[m].IsNew() then Creates(Added(s, p), m) && !Inserts(p, a)
      else
        var early := LosesAll(s.(calls := s.calls + 1), a.before, m);
        var (w, written) := Write(p, KindOf(s, a), a.model);
        if Refused(p, KindOf(s, a), a) || !written then early
        else LosesAll(w, a.after, m) || (early && !Creates(Added(w, ExecAll(w, a.after)), m))
  }

  predicate LosesAll(s: State, actions: seq<Action>, m: nat)
    requires m < |s.models|
    decreases actions, 0
  {
    if actions == [] then false
    else
      var t := Exec(s, actions[0]).0;
      LosesAll(t, actions[1..], m)
      || (Loses(s, actions[0], m) && !Creates(Added(t, ExecAll(t, actions[1..])), m))
  }

  lemma LiesJoin(s: State, t: State, u: State, m: nat)
    requires s.deferred <= t.deferred <= u.deferred && m < |s.models| == |t.models| == |u.models|
    requires FlagFollows(t, u, m)
    ensures Lies(s, u, m) <==> Lies(t, u, m) || (Lies(s, t, m) && !Creates(Added(t, u), m))
  {
    assert Added(s, u) == Added(s, t) + Added(t, u);
    CreatesJoin(Added(s, t), Added(t, u), m);
  }

  lemma WithinAt(s: State, t: State, m: nat)
    requires Within(s, t) && m < |s.models|
    ensures t.inTx && |t.models| == |s.models| && s.deferred <= t.deferred && FlagFollows(s, t, m)
  {
  }

  lemma {:induction false} LosesMeansLies(s: State, actions: seq<Action>, m: nat)
    requires s.inTx && m < |s.models|
    ensures LosesAll(s, actions, m) <==> Lies(s, ExecAll(s, actions), m)
    decreases actions, 0
  {
    if actions != [] {
      hide Within, Loses, Lies, FlagFollows;
      var t := Exec(s, actions[0]).0;
      var u := ExecAll(t, actions[1..]);
      StaysWithin(s, actions[0]);
      WithinAt(s, t, m);
      StaysWithinAll(t, actions[1..]);
      WithinAt(t, u, m);
      LosesMeansLiesBy(s, actions[0], m);
      LosesMeansLies(t, actions[1..], m);
      LiesJoin(s, t, u, m);
    }
  }

  lemma {:induction false} LosesMeansLiesBy(s: State, a: Action, m: nat)
    requires s.inTx && m < |s.models|
    ensures Loses(s, a, m) <==> Lies(s, Exec(s, a).0, m)
    decreases a, 2
  {
    if a.Transaction? {
      LosesMeansLies(s, a.body, m);
    } else if a.model >= |s.models| {
    } else if a.Save? && a.model == m && s.models[m].IsNew() {
      FlagLiesExactlyAfterReentry(s, a);
    } else {
      OtherLies(s, a, m);
    }
  }

  /** A failed operation leaves the flags of the other models, and all flags if it creates none. */
  lemma EndLies(s: State, x: State, c: Call, m: nat)
    requires x.inTx && s.deferred <= x.deferred && m < |x.models| && (c.kind.Create? ==> c.model != m)
    ensures Lies(s, Failed(x, c), m) <==> Lies(s, x, m)
    ensures Lies(s, Succeeded(x, c), m) <==> Lies(s, x, m)
  {
    assert Added(s, Failed(x, c)) == Added(s, x);
    assert Added(s, Succeeded(x, c)) == Added(s, x) + [c];
    CreatesJoin(Added(s, x), [c], m);
  }

  lemma WriteLies(s: State, p: State, kind: Kind, k: nat, m: nat)
    requires p.inTx && k < |p.models| && m < |p.models| && (kind.Create? ==> k != m)
    ensures var w := Write(p, kind, k).0;
      w.inTx && w.deferred == p.deferred && |w.models| == |p.models| && (Lies(s, w, m) <==> Lies(s, p, m))
  {
  }

  lemma {:induction false} OtherLies(s: State, a: Action, m: nat)
    requires s.inTx && m < |s.models| && !a.Transaction? && a.model < |s.models|
    requires !(a.Save? && a.model == m && s.models[m].IsNew())
    ensures Loses(s, a, m) <==> Lies(s, Exec(s, a).0, m)
    decreases a, 1
  {
    hide Within, Lies, FlagFollows, LosesAll, Failed, Succeeded, Write;
    var s0, c, p := s.(calls := s.calls + 1), CallOf(s, a), Prepared(s, a);
    StaysWithinAll(s0, a.before);
    WithinAt(s0, p, m);
    LosesMeansLies(s0, a.before, m);
    SameLies(s, s0, p, m);
    var (w, written) := Write(p, c.kind, a.model);
    WriteLies(s, p, c.kind, a.model, m);
    if Refused(p, c.kind, a) || !written {
      assert Refused(p, c.kind, a) || Body(p, c, a) == (w, false);
      RefusedWrite(p, c.kind, a.model);
      EndLies(s, p, c, m);
    } else {
      var x := ExecAll(w, a.after);
      StaysWithinAll(w, a.after);
      WithinAt(w, x, m);
      LosesMeansLies(w, a.after, m);
      LiesJoin(s, w, x, m);
      assert Body(p, c, a) == (x, a.outcome.Done?);
      EndLies(s, x, c, m);
    }
  }

  lemma SameLies(s: State, s0: State, t: State, m: nat)
    requires s0.deferred == s.deferred && m < |t.models|
    ensures Lies(s0, t, m) <==> Lies(s, t, m)
  {
  }

  lemma RefusedWrite(s: State, kind: Kind, m: nat)
    requires m < |s.models|
    ensures !Write(s, kind, m).1 ==> Write(s, kind, m).0 == s
  {
  }

  /** A model created in a transaction ends up new exactly when the transaction rolled back or the
      flag was lost in it; every other model keeps its flag. */
  lemma CreatedModelsFollowTheTransaction(s: State, body: seq<Action>, fails: bool, m: nat)
    requires !s.inTx && m < |s.models|
    ensures
      var t := Exec(s, Transaction(body, fails)).0;
      if Creates(ExecAll(Begin(s), body).deferred, m)
      then s.models[m].IsNew() && (t.models[m].IsNew() <==> fails || LosesAll(Begin(s), body, m))
      else t.models[m] == s.models[m]
  {
    hide Within, LosesAll;
    var b := Begin(s);
    var u := ExecAll(b, body);
    StaysWithinAll(b, body);
    WithinAt(b, u, m);
    LosesMeansLies(b, body, m);
    assert Added(b, u) == u.deferred;
    UnmarkedAt(u.models, u.deferred, m);
  }

  lemma AfterFailedCreate(s: State, t: State, c: Call)
    requires c.kind.Create? && c.model < |t.models|
    ensures Failed(t, c).models[c.model].IsNew() && Added(s, Failed(t, c)) == Added(s, t)
  {
  }

  lemma AfterWrittenCreate(s: State, s1: State, s2: State, t: State, c: Call)
    requires Within(s, s1) && Within(s2, t) && c.kind.Create? && c.model < |s.models|
    requires (s2, true) == Write(s1, Create, c.model)
    ensures !t.models[c.model].IsNew() && !Succeeded(t, c).models[c.model].IsNew()
    ensures Creates(Added(s, t), c.model) <==> Creates(Added(s, s1), c.model)
  {
    assert FlagFollows(s2, t, c.model);
    assert Added(s, t) == Added(s, s1) + Added(s2, t);
    CreatesJoin(Added(s, s1), Added(s2, t), c.model);
  }

  /** For a single create in an open transaction the flag lies exactly in one case: the create
      does not go through, although its own hooks had created the model before. */
  lemma FlagLiesExactlyAfterReentry(s: State, a: Action)
    requires s.inTx && a.Save? && a.model < |s.models| && s.models[a.model].IsNew()
    ensures var p := Prepared(s, a);
      Lies(s, Exec(s, a).0, a.model) <==> Creates(Added(s, p), a.model) && !Inserts(p, a)
  {
    hide Within, Creates, Added, Failed, Succeeded;
    var c := CallOf(s, a);
    var s1 := Prepared(s, a);
    StaysWithinAll(s.(calls := s.calls + 1), a.before);
    WithinRenumbered(s, s.calls + 1, s1);
    WithinShape(s, s1);
    var (s2, written) := Write(s1, Create, a.model);
    if Refused(s1, c.kind, a) {
      AfterFailedCreate(s, s1, c);
    } else if !written {
      assert Body(s1, c, a) == (s1, false);
      AfterFailedCreate(s, s1, c);
    } else {
      var s3 := ExecAll(s2, a.after);
      StaysWithinAll(s2, a.after);
      WithinShape(s2, s3);
      AfterFailedCreate(s, s3, c);
      AfterWrittenCreate(s, s1, s2, s3, c);
      assert Body(s1, c, a) == (s3, a.outcome.Done?);
    }
  }

  // ---- only reentry loses a flag ----------------------------------------------------------------------

  /** The models a run may save, at any depth. */
  function SavedBy(a: Action): set<nat>
    decreases a, 1
  {
    match a
    case Save(m, _, before, after, _, _) => {m} + SavedByAll(before) + SavedByAll(after)
    case Remove(_, _, before, after, _, _) => SavedByAll(before) + SavedByAll(after)
    case Transaction(body, _) => SavedByAll(body)
  }

  function SavedByAll(actions: seq<Action>): set<nat>
    decreases actions, 0
  {
    if actions == [] then {} else SavedBy(actions[0]) + SavedByAll(actions[1..])
  }

  /** Some save of the model makes its hooks save it again before its own write. */
  predicate Reenters(a: Action, m: nat)
    decreases a, 1
  {
    match a
    case Save(k, _, before, after, _, _) =>
      (k == m && m in SavedByAll(before)) || ReentersAll(before, m) || ReentersAll(after, m)
    case Remove(_, _, before, after, _, _) => ReentersAll(before, m) || ReentersAll(after, m)
    case Transaction(body, _) => ReentersAll(body, m)
  }

  predicate ReentersAll(actions: seq<Action>, m: nat)
    decreases actions, 0
  {
    actions != [] && (Reenters(actions[0], m) || ReentersAll(actions[1..], m))
  }

  lemma {:induction false} CreatedAreSaved(s: State, actions: seq<Action>, m: nat)
    requires s.inTx && Creates(Added(s, ExecAll(s, actions)), m)
    ensures m in SavedByAll(actions)
    decreases actions, 0
  {
    if actions != [] {
      hide Within, Creates, SavedBy;
      var t := Exec(s, actions[0]).0;
      var u := ExecAll(t, actions[1..]);
      StaysWithin(s, actions[0]);
      StaysWithinAll(t, actions[1..]);
      AddedJoin(s, t, u, m);
      if Creates(Added(t, u), m) {
        CreatedAreSaved(t, actions[1..], m);
      } else {
        CreatedIsSaved(s, actions[0], m);
      }
    }
  }

  lemma AddedJoin(s: State, t: State, u: State, m: nat)
    requires Within(s, t) && Within(t, u)
    ensures t.inTx && (Creates(Added(s, u), m) <==> Creates(Added(s, t), m) || Creates(Added(t, u), m))
  {
    assert Added(s, u) == Added(s, t) + Added(t, u);
    CreatesJoin(Added(s, t), Added(t, u), m);
  }

  /** The end of an operation adds no create but its own. */
  lemma EndAdds(s: State, x: State, c: Call, m: nat)
    requires x.inTx && s.deferred <= x.deferred && !(c.kind.Create? && c.model == m)
    ensures Creates(Added(s, Failed(x, c)), m) <==> Creates(Added(s, x), m)
    ensures Creates(Added(s, Succeeded(x, c)), m) <==> Creates(Added(s, x), m)
  {
    assert Added(s, Failed(x, c)) == Added(s, x);
    assert Added(s, Succeeded(x, c)) == Added(s, x) + [c];
    CreatesJoin(Added(s, x), [c], m);
  }

  lemma AroundWrite(s: State, p: State, kind: Kind, k: nat, x: State, m: nat)
    requires k < |p.models| && s.deferred <= p.deferred <= x.deferred
    ensures var w := Write(p, kind, k).0;
      w.inTx == p.inTx && w.deferred == p.deferred
      && (Creates(Added(s, x), m) <==> Creates(Added(s, p), m) || Creates(Added(w, x), m))
  {
    var w := Write(p, kind, k).0;
    assert Added(s, x) == Added(s, p) + Added(w, x);
    CreatesJoin(Added(s, p), Added(w, x), m);
  }

  lemma WithinGrows(s: State, t: State)
    requires Within(s, t)
    ensures t.inTx && |t.models| == |s.models| && s.deferred <= t.deferred
  {
  }

  lemma {:induction false} CreatedIsSaved(s: State, a: Action, m: nat)
    requires s.inTx && Creates(Added(s, Exec(s, a).0), m)
    ensures m in SavedBy(a)
    decreases a, 1
  {
    if a.Transaction? {
      CreatedAreSaved(s, a.body, m);
    } else if a.model < |s.models| && !(a.Save? && a.model == m) {
      hide Within, Creates, SavedByAll, Failed, Succeeded, Write;
      var s0, c, p := s.(calls := s.calls + 1), CallOf(s, a), Prepared(s, a);
      StaysWithinAll(s0, a.before);
      WithinGrows(s0, p);
      assert Added(s0, p) == Added(s, p);
      var (w, written) := Write(p, c.kind, a.model);
      AroundWrite(s, p, c.kind, a.model, p, m);
      if Refused(p, c.kind, a) || !written {
        RefusedWrite(p, c.kind, a.model);
        assert Refused(p, c.kind, a) || Body(p, c, a) == (p, false);
        EndAdds(s, p, c, m);
        CreatedAreSaved(s0, a.before, m);
      } else {
        var x := ExecAll(w, a.after);
        StaysWithinAll(w, a.after);
        WithinGrows(w, x);
        assert Body(p, c, a) == (x, a.outcome.Done?);
        EndAdds(s, x, c, m);
        AroundWrite(s, p, c.kind, a.model, x, m);
        if Creates(Added(w, x), m) {
          CreatedAreSaved(w, a.after, m);
        } else {
          CreatedAreSaved(s0, a.before, m);
        }
      }
    }
  }

  lemma {:induction false} LostIsReentered(s: State, a: Action, m: nat)
    requires s.inTx && m < |s.models| && Loses(s, a, m)
    ensures Reenters(a, m)
    decreases a, 1
  {
    if a.Transaction? {
      LostAreReentered(s, a.body, m);
    } else {
      var s0, p := s.(calls := s.calls + 1), Prepared(s, a);
      StaysWithinAll(s0, a.before);
      if a.Save? && a.model == m && s.models[m].IsNew() {
        assert Added(s0, p) == Added(s, p);
        CreatedAreSaved(s0, a.before, m);
      } else {
        if LosesAll(s0, a.before, m) {
          LostAreReentered(s0, a.before, m);
        } else {
          LostAreReentered(Write(p, KindOf(s, a), a.model).0, a.after, m);
        }
      }
    }
  }

  /** A flag is lost only where some save of the model makes its hooks save it again before its
      own write. */
  lemma {:induction false} LostAreReentered(s: State, actions: seq<Action>, m: nat)
    requires s.inTx && m < |s.models| && LosesAll(s, actions, m)
    ensures ReentersAll(actions, m)
    decreases actions, 0
  {
    var t := Exec(s, actions[0]).0;
    StaysWithin(s, actions[0]);
    if LosesAll(t, actions[1..], m) {
      LostAreReentered(t, actions[1..], m);
    } else {
      LostIsReentered(s, actions[0], m);
    }
  }

  /** So without such a save the flag of a created model always tells the truth. */
  lemma FlagsHoldWithoutReentry(s: State, body: seq<Action>, fails: bool, m: nat)
    requires !s.inTx && m < |s.models| && !ReentersAll(body, m)
    requires Creates(ExecAll(Begin(s), body).deferred, m)
    ensures Exec(s, Transaction(body, fails)).0.models[m].IsNew() <==> fails
  {
    CreatedModelsFollowTheTransaction(s, body, fails, m);
    if LosesAll(Begin(s), body, m) {
      LostAreReentered(Begin(s), body, m);
      assert false;
    }
  }

  /** With one the flag can lie: the hooks of a create save the same model first,
      the outer insert then fails on the taken id, and the model is new although its row stays. */
  lemma ReentryLosesTheFlag()
    ensures
      var inner := Save(0, Done, [], [], false, false);
      var run := Transaction([Save(0, Done, [inner], [], false, false)], false);
      var s := State([Model("a", "")], {}, false, {}, [], [], 0);
      var (t, ok) := Exec(s, run);
      ok && "a" in t.rows && t.models[0].IsNew() && Hook(Call(1, Create, 0, false), true) in t.fired
  {
    var inner := Save(0, Done, [], [], false, false);
    var outer := Save(0, Done, [inner], [], false, false);
    var s := State([Model("a", "")], {}, false, {}, [], [], 0);
    var b := Begin(s);
    var b1 := b.(calls := 1);
    var c, d := Call(0, Create, 0, false), Call(1, Create, 0, false);
    assert CallOf(b1, inner) == d;
    assert Prepared(b1, inner) == b.(calls := 2);
    var w := b.(calls := 2, rows := {"a"}, models := [Model("a", "a")]);
    assert Write(b.(calls := 2), Create, 0) == (w, true) by {
      assert b.rows + {"a"} == {"a"};
      assert Marked(b.models, 0, "a") == [Model("a", "a")];
    }
    assert Body(b.(calls := 2), d, inner) == (w, true);
    var s1 := w.(deferred := [d]);
    assert Succeeded(w, d) == s1 by { assert w.deferred + [d] == [d]; }
    assert Exec(b1, inner) == (s1, true);
    assert ExecAll(b1, [inner]) == s1;
    assert Prepared(b, outer) == s1;
    assert Body(s1, c, outer) == (s1, false);
    var s2 := Failed(s1, c);
    assert Exec(b, outer) == (s2, false);
    assert ExecAll(b, [outer]) == s2;
    var t := End(s2, false);
    assert t.fired[1] == Hook(d, true);
  }

  // ---- an operation whose hooks open their own transaction --------------------------------------------

  lemma RolledBackBody(p: State, c: Call, a: Action)
    requires !p.inTx && !a.Transaction? && c.model < |p.models|
    requires a.wrapped && a.outcome.FailAfter?
    ensures
      var (e, ok) := Body(p, c, a);
      && !ok && e.rows == p.rows && |e.models| == |p.models| && p.fired <= e.fired
      && (forall m :: 0 <= m < |p.models| && (m != c.model || !c.kind.Create?) ==> e.models[m] == p.models[m])
      && e.models[c.model].id == p.models[c.model].id
      && (forall i :: |p.fired| <= i < |e.fired| ==> !e.fired[i].success)
  {
    var (s2, written) := Write(Begin(p), c.kind, c.model);
    if written {
      var s3 := ExecAll(s2, a.after);
      StaysWithinAll(s2, a.after);
      var e := End(s3, true);
      assert Body(p, c, a) == (e, false);
      forall m | 0 <= m < |p.models|
        ensures e.models[m].id == p.models[m].id
        ensures m != c.model || !c.kind.Create? ==> e.models[m] == p.models[m]
      {
        assert FlagFollows(s2, s3, m);
        assert Added(s2, s3) == s3.deferred;
        UnmarkedAt(s3.models, s3.deferred, m);
      }
    } else {
      assert Body(p, c, a) == (End(s2, true), false);
    }
  }

  /** When its transaction rolls back, everything since the start of that transaction is undone:
      the rows, and every flag except that the model of a create is new again. */
  lemma FailedWrappedOperation(s: State, a: Action)
    requires !s.inTx && !a.Transaction? && a.model < |s.models|
    requires a.wrapped && a.outcome.FailAfter?
    ensures
      var p := Prepared(s, a);
      var (t, ok) := Exec(s, a);
      && !ok && t.rows == p.rows
      && t.models == (if KindOf(s, a).Create? then Marked(p.models, a.model, "") else p.models)
      && p.fired < t.fired && (forall i :: |p.fired| <= i < |t.fired| ==> !t.fired[i].success)
  {
    var c := CallOf(s, a);
    var p := Prepared(s, a);
    PreparedOutside(s, a);
    if !Refused(p, c.kind, a) {
      RolledBackBody(p, c, a);
      var e := Body(p, c, a).0;
      assert Exec(s, a) == (Failed(e, c), false);
      assert Failed(e, c).models == if c.kind.Create? then Marked(p.models, a.model, "") else p.models;
    }
  }

  lemma PreparedOutside(s: State, a: Action)
    requires !s.inTx && !a.Transaction?
    ensures !Prepared(s, a).inTx
  {
    OutsideAll(s.(calls := s.calls + 1), a.before);
  }

  lemma {:induction false} Outside(s: State, a: Action)
    requires !s.inTx
    ensures !Exec(s, a).0.inTx
    decreases a, 1
  {
    if !a.Transaction? && a.model < |s.models| {
      var s1 := Prepared(s, a);
      OutsideAll(s.(calls := s.calls + 1), a.before);
      if !a.wrapped {
        OutsideAll(Write(s1, KindOf(s, a), a.model).0, a.after);
      }
      assert !Body(s1, CallOf(s, a), a).0.inTx;
    }
  }

  lemma {:induction false} OutsideAll(s: State, actions: seq<Action>)
    requires !s.inTx
    ensures !ExecAll(s, actions).inTx
    decreases actions, 0
  {
    if actions != [] {
      Outside(s, actions[0]);
      OutsideAll(Exec(s, actions[0]).0, actions[1..]);
    }
  }

  /** An operation in its own transaction reports success exactly when it committed and no hook
      that waited for that commit failed; and in exactly that case the model of a create is saved. */
  lemma WrappedOperationSucceeds(s: State, a: Action)
    requires !s.inTx && !a.Transaction? && a.model < |s.models| && a.wrapped
    ensures
      var c := CallOf(s, a);
      var p := Prepared(s, a);
      var (w, written) := Write(Begin(p), c.kind, a.model);
      var t := Exec(s, a).0;
      var committed := !Refused(p, c.kind, a) && written && a.outcome.Done?;
      && t.fired != []
      && t.fired[|t.fired| - 1] == Hook(c, committed && !SomeHookFails(ExecAll(w, a.after).deferred))
      && t.rows == (if committed then ExecAll(w, a.after).rows else p.rows)
      && (c.kind.Create? ==>
            (t.models[a.model].IsNew() <==> !(committed && !SomeHookFails(ExecAll(w, a.after).deferred))))
  {
    var c := CallOf(s, a);
    var p := Prepared(s, a);
    PreparedOutside(s, a);
    var (w, written) := Write(Begin(p), c.kind, a.model);
    var s3 := ExecAll(w, a.after);
    StaysWithinAll(w, a.after);
    assert FlagFollows(w, s3, a.model);
    var done := written && a.outcome.Done?;
    if !Refused(p, c.kind, a) {
      assert Body(p, c, a) == (End(if written then s3 else w, !done), done && !SomeHookFails(s3.deferred));
    }
  }

  /** So a committed create can still be reported as failed and its model marked as new: it is
      enough that the success hook of a second create in its transaction returns an error. */
  lemma CommittedYetReportedAsFailed()
    ensures
      var a := Save(0, Done, [], [Save(1, Done, [], [], false, true)], true, false);
      var s := State([Model("a", ""), Model("b", "")], {}, false, {}, [], [], 0);
      var (t, ok) := Exec(s, a);
      && !ok && "a" in t.rows && t.models[0].IsNew()
      && t.fired == [Hook(Call(1, Create, 1, true), true), Hook(Call(0, Create, 0, false), false)]
  {
    var inner := Save(1, Done, [], [], false, true);
    var a := Save(0, Done, [], [inner], true, false);
    var s := State([Model("a", ""), Model("b", "")], {}, false, {}, [], [], 0);
    var c, d := Call(0, Create, 0, false), Call(1, Create, 1, true);
    var p := s.(calls := 1);
    assert Prepared(s, a) == p;
    var w := Begin(p).(rows := {"a"}, models := [Model("a", "a"), Model("b", "")]);
    assert Begin(p).rows + {"a"} == {"a"};
    assert Marked(p.models, 0, "a") == w.models;
    assert Write(Begin(p), Create, 0) == (w, true);
    var w2 := w.(calls := 2);
    assert Prepared(w, inner) == w2;
    assert "b" !in w2.rows by { assert "b"[0] != "a"[0]; }
    var x := w2.(rows := {"a", "b"}, models := [Model("a", "a"), Model("b", "b")]);
    assert w2.rows + {"b"} == {"a", "b"};
    assert Marked(w2.models, 1, "b") == x.models;
    assert Write(w2, Create, 1) == (x, true);
    assert Body(w2, d, inner) == (x, true);
    var s3 := x.(deferred := [d]);
    assert CallOf(w, inner) == d;
    assert Succeeded(x, d) == s3 by { assert x.deferred + [d] == [d]; }
    assert Exec(w, inner) == (s3, true);
    assert ExecAll(w, [inner]) == s3;
    assert s3.deferred[0].hookFails;
    var e := End(s3, false);
    assert Body(p, c, a) == (e, false);
    assert e.fired == [Hook(d, true)] by {
      assert s3.fired + Resolved([d], true) == [Hook(d, true)];
    }
    assert Exec(s, a) == (Failed(e, c), false);
  }

  // ---- what the rows are ------------------------------------------------------------------------------

  /** The write of an operation that began in `s` goes through in `p`: an insert needs an id that
      no row has, an update the id that was saved, a delete a saved model. */
  predicate Accepted(s: State, p: State, a: Action)
    requires !a.Transaction? && a.model < |s.models| == |p.models|
  {
    var m := p.models[a.model];
    && !a.outcome.FailBefore?
    && if a.Remove? then m.lastSavedPK != ""
       else if s.models[a.model].lastSavedPK == "" then m.id != "" && m.id !in p.rows
       else m.id == m.lastSavedPK
  }

  /** A save or delete whose hooks do nothing: what becomes of rows, models and hooks, and the
      result. What was written before a failure stays, unless it was in a transaction of its own. */
  lemma LoneOperation(s: State, a: Action)
    requires !a.Transaction? && a.model < |s.models| && a.before == a.after == []
    requires !s.inTx ==> s.deferred == []
    ensures
      var (t, ok) := Exec(s, a);
      var m := s.models[a.model];
      var creates := a.Save? && m.lastSavedPK == "";
      var c := Call(s.calls, if a.Remove? then Delete else if creates then Create else Update, a.model, a.hookFails);
      var kept := Accepted(s, s, a) && (a.outcome.Done? || s.inTx || !a.wrapped);
      var done := Accepted(s, s, a) && a.outcome.Done?;
      && t.rows == (if !kept || (a.Save? && !creates) then s.rows
                    else if creates then s.rows + {m.id} else s.rows - {m.lastSavedPK})
      && t.models == (if creates then s.models[a.model := Model(m.id, if done then m.id else "")] else s.models)
      && t.fired == s.fired + (if done && s.inTx then [] else [Hook(c, done)])
      && t.deferred == s.deferred + (if done && s.inTx then [c] else [])
      && t.inTx == s.inTx && t.calls == s.calls + 1
      && (ok <==> done && (s.inTx || !a.hookFails))
  {
    var c, p := CallOf(s, a), Prepared(s, a);
    assert ExecAll(s.(calls := s.calls + 1), a.before) == s.(calls := s.calls + 1);
    if !Refused(p, c.kind, a) {
      LoneBody(p, c, a);
    }
  }

  lemma LoneBody(p: State, c: Call, a: Action)
    requires !a.Transaction? && c.model < |p.models| && a.after == []
    ensures
      var own := a.wrapped && !p.inTx;
      var (w, written) := Write(p, c.kind, c.model);
      var done := written && a.outcome.Done?;
      var (t, ok) := Body(p, c, a);
      && ok == done
      && t.rows == (if own && !done then p.rows else w.rows) && t.models == w.models
      && t.fired == p.fired && t.deferred == (if own then [] else p.deferred)
      && t.inTx == p.inTx && t.calls == p.calls
  {
    hide Write, End;
    var own := a.wrapped && !p.inTx;
    var q := if own then Begin(p) else p;
    var (w, written) := Write(q, c.kind, c.model);
    WriteAnywhere(p, q, c.kind, c.model);
    WriteAnywhere(q, q, c.kind, c.model);
    assert ExecAll(w, a.after) == w;
    if own {
      NothingWaits(w, !(written && a.outcome.Done?));
    }
  }

  lemma WriteAnywhere(p: State, q: State, kind: Kind, m: nat)
    requires m < |p.models| && q.models == p.models && q.rows == p.rows
    ensures
      var (v, w) := (Write(p, kind, m), Write(q, kind, m));
      w.1 == v.1 && w.0 == q.(rows := v.0.rows, models := v.0.models)
  {
  }

  lemma NothingWaits(s: State, failed: bool)
    requires s.deferred == []
    ensures End(s, failed) == s.(inTx := false, base := {}, rows := if failed then s.base else s.rows)
  {
    assert s.fired + Resolved([], !failed) == s.fired;
  }

  /** What one write did to the rows. */
  datatype Entry = Inserted(id: string) | Dropped(id: string)

  function Applied(rows: set<string>, ledger: seq<Entry>): set<string> {
    if ledger == [] then rows
    else
      var before, e := Applied(rows, ledger[..|ledger| - 1]), ledger[|ledger| - 1];
      if e.Inserted? then before + {e.id} else before - {e.id}
  }

  /** A row is there exactly if it was inserted and not dropped since, or was there and never
      dropped. */
  lemma {:induction false} LastEntryDecides(rows: set<string>, ledger: seq<Entry>, id: string)
    ensures id in Applied(rows, ledger) <==>
      || (id in rows && Dropped(id) !in ledger)
      || exists i :: 0 <= i < |ledger| && ledger[i] == Inserted(id) && Dropped(id) !in ledger[i..]
  {
    if ledger != [] {
      var n := |ledger| - 1;
      var init, last := ledger[..n], ledger[n];
      LastEntryDecides(rows, init, id);
      assert ledger == init + [last];
      forall i | 0 <= i < n ensures ledger[i..] == init[i..] + [last] {
      }
      if last == Inserted(id) {
        assert ledger[n..] == [last];
      }
      if id in Applied(rows, init) && last != Dropped(id) && !(id in rows && Dropped(id) !in init) {
        var i :| 0 <= i < n && init[i] == Inserted(id) && Dropped(id) !in init[i..];
        assert ledger[i] == Inserted(id) && Dropped(id) !in ledger[i..];
      }
    }
  }

  /** The writes of a run that last, in order: those of operations whose write goes through, and
      none of a transaction that rolls back, be it the operation's own. */
  function Ledger(s: State, a: Action): seq<Entry>
    decreases a, 1
  {
    if a.Transaction? then
      if s.inTx then LedgerAll(s, a.body) else if a.fails then [] else LedgerAll(Begin(s), a.body)
    else if a.model >= |s.models| then []
    else
      var p := Prepared(s, a);
      var early := LedgerAll(s.(calls := s.calls + 1), a.before);
      var own := a.wrapped && !p.inTx;
      if !Accepted(s, p, a) || (own && !a.outcome.Done?) then early
      else
        var w := Write(if own then Begin(p) else p, KindOf(s, a), a.model).0;
        early + OwnEntry(s, p, a) + LedgerAll(w, a.after)
  }

  function OwnEntry(s: State, p: State, a: Action): seq<Entry>
    requires !a.Transaction? && a.model < |s.models| == |p.models|
  {
    if a.Remove? then [Dropped(p.models[a.model].lastSavedPK)]
    else if s.models[a.model].lastSavedPK == "" then [Inserted(p.models[a.model].id)]
    else []
  }

  function LedgerAll(s: State, actions: seq<Action>): seq<Entry>
    decreases actions, 0
  {
    if actions == [] then [] else Ledger(s, actions[0]) + LedgerAll(Exec(s, actions[0]).0, actions[1..])
  }

  lemma {:induction false} AppliedJoin(rows: set<string>, a: seq<Entry>, b: seq<Entry>)
    ensures Applied(rows, a + b) == Applied(Applied(rows, a), b)
  {
    if b == [] {
      assert a + b == a;
    } else {
      var n := |b| - 1;
      AppliedJoin(rows, a, b[..n]);
      assert (a + b)[..|a + b| - 1] == a + b[..n];
    }
  }

  lemma WriteApplies(s: State, p: State, a: Action)
    requires !a.Transaction? && a.model < |s.models| == |p.models|
    ensures
      var own := a.wrapped && !p.inTx;
      var (w, written) := Write(if own then Begin(p) else p, KindOf(s, a), a.model);
      && (Accepted(s, p, a) <==> !Refused(p, KindOf(s, a), a) && written)
      && (Accepted(s, p, a) ==> w.rows == Applied(p.rows, OwnEntry(s, p, a)))
      && (!written ==> w.rows == p.rows) && w.inTx == (own || p.inTx) && (own ==> w.base == p.rows)
  {
    assert forall e: Entry :: [e][..0] == [] && Applied(p.rows, []) == p.rows;
  }

  lemma KeepsBase(s: State, actions: seq<Action>)
    requires s.inTx
    ensures ExecAll(s, actions).base == s.base
  {
    StaysWithinAll(s, actions);
  }

  lemma BodyRows(p: State, c: Call, a: Action)
    requires !a.Transaction? && c.model < |p.models|
    ensures
      var own := a.wrapped && !p.inTx;
      var (w, written) := Write(if own then Begin(p) else p, c.kind, c.model);
      var x := ExecAll(w, a.after);
      && (Body(p, c, a).1 ==> written && a.outcome.Done?)
      && Body(p, c, a).0.rows == (if own && !(written && a.outcome.Done?) then p.rows else if written then x.rows
                                  else w.rows)
  {
    var own := a.wrapped && !p.inTx;
    var (w, written) := Write(if own then Begin(p) else p, c.kind, c.model);
    if own && written {
      KeepsBase(w, a.after);
    }
  }

  lemma OperationRows(s: State, a: Action)
    requires !a.Transaction? && a.model < |s.models|
    ensures
      var c, p := CallOf(s, a), Prepared(s, a);
      Exec(s, a).0.rows == if Refused(p, c.kind, a) then p.rows else Body(p, c, a).0.rows
  {
  }

  lemma {:induction false} RowsFollowTheLedgerBy(s: State, a: Action)
    ensures Exec(s, a).0.rows == Applied(s.rows, Ledger(s, a))
    decreases a, 1
  {
    if a.Transaction? {
      RowsFollowTheLedger(if s.inTx then s else Begin(s), a.body);
      if !s.inTx { KeepsBase(Begin(s), a.body); }
      assert Applied(s.rows, []) == s.rows;
    } else if a.model < |s.models| {
      hide Exec, Body, Applied, LedgerAll, Accepted, OwnEntry, Write, ExecAll, Refused;
      var c, p := CallOf(s, a), Prepared(s, a);
      var early := LedgerAll(s.(calls := s.calls + 1), a.before);
      RowsFollowTheLedger(s.(calls := s.calls + 1), a.before);
      assert p.rows == Applied(s.rows, early);
      WriteApplies(s, p, a);
      var own := a.wrapped && !p.inTx;
      var (w, written) := Write(if own then Begin(p) else p, c.kind, a.model);
      OperationRows(s, a);
      BodyRows(p, c, a);
      if written {
        RowsFollowTheLedger(w, a.after);
        AppliedJoin(s.rows, early, OwnEntry(s, p, a));
        AppliedJoin(s.rows, early + OwnEntry(s, p, a), LedgerAll(w, a.after));
      }
    }
  }

  /** Over any run, with any nesting, the rows are what the ledger makes of them. */
  lemma {:induction false} RowsFollowTheLedger(s: State, actions: seq<Action>)
    ensures ExecAll(s, actions).rows == Applied(s.rows, LedgerAll(s, actions))
    decreases actions, 0
  {
    if actions != [] {
      hide Ledger, Exec;
      var t := Exec(s, actions[0]).0;
      RowsFollowTheLedgerBy(s, actions[0]);
      RowsFollowTheLedger(t, actions[1..]);
      AppliedJoin(s.rows, Ledger(s, actions[0]), LedgerAll(t, actions[1..]));
    }
  }

  // ---- the code ---------------------------------------------------------------------------------------

  class BaseModel {
    var Id: string
    var lastSavedPK: string

    constructor (id: string)
      ensures Id == id && lastSavedPK == ""
    {
      Id := id;
      lastSavedPK := "";
    }

    predicate IsNew()
      reads this
    {
      lastSavedPK == ""
    }

    method MarkAsNew()
      modifies `lastSavedPK
      ensures IsNew()
    {
      lastSavedPK := "";
    }

    method MarkAsNotNew()
      modifies `lastSavedPK
      ensures lastSavedPK == Id
      ensures IsNew() <==> Id == ""
    {
      lastSavedPK := Id;
    }
  }

  /** The application handle together with its open transaction, if any: `afterFuncs` holds the
      registered completions, `fired` the hooks that ran. */
  class App {
    const models: seq<BaseModel>
    var rows: set<string>
    var inTx: bool
    var base: set<string>
    var afterFuncs: seq<Call>
    var fired: seq<Hook>
    var calls: nat

    constructor (models: seq<BaseModel>, rows: set<string>)
      ensures this.models == models && this.rows == rows && !inTx && base == {}
      ensures afterFuncs == [] && fired == [] && calls == 0
    {
      this.models := models;
      this.rows := rows;
      inTx, base, afterFuncs, fired, calls := false, {}, [], [], 0;
    }

    ghost predicate Wired()
      reads this
    {
      && (forall i, j :: 0 <= i < j < |models| ==> models[i] != models[j])
      && (forall i :: 0 <= i < |afterFuncs| ==> afterFuncs[i].model < |models|)
    }

    ghost predicate Valid()
      reads this
    {
      Wired() && (!inTx ==> base == {} && afterFuncs == [])
    }

    ghost function Models(): (r: seq<Model>)
      reads models
      ensures |r| == |models|
    {
      seq(|models|, i requires 0 <= i < |models| reads models => Model(models[i].Id, models[i].lastSavedPK))
    }

    ghost function Snapshot(): State
      reads this, models
    {
      State(Models(), rows, inTx, base, afterFuncs, fired, calls)
    }

    method MarkAsNew(m: nat)
      requires Wired() && m < |models|
      modifies models
      ensures Wired()
      ensures Snapshot() == old(Snapshot()).(models := Marked(old(Models()), m, ""))
    {
      models[m].MarkAsNew();
      assert Models() == Marked(old(Models()), m, "");
    }

    method MarkAsNotNew(m: nat)
      requires Wired() && m < |models|
      modifies models
      ensures Wired()
      ensures Snapshot() == old(Snapshot()).(models := Marked(old(Models()), m, models[m].Id))
      ensures models[m].Id == old(models[m].Id)
    {
      models[m].MarkAsNotNew();
      assert Models() == Marked(old(Models()), m, models[m].Id);
    }

    method OnComplete(c: Call)
      requires Valid() && inTx && c.model < |models|
      modifies this
      ensures Valid()
      ensures Snapshot() == old(Snapshot()).(deferred := old(afterFuncs) + [c])
    {
      afterFuncs := afterFuncs + [c];
    }

    method Complete(c: Call, failed: bool)
      requires Wired() && c.model < |models|
      modifies this, models
      ensures Wired()
      ensures Snapshot() == CompletedOne(old(Snapshot()), c, failed)
      ensures afterFuncs == old(afterFuncs)
    {
      if failed && c.kind.Create? {
        MarkAsNew(c.model);
      }
      fired := fired + [Hook(c, !failed)];
    }

    /** Runs the registered completions in order, then forgets them. */
    method RunAfterFuncs(failed: bool) returns (ok: bool)
      requires Wired()
      modifies this, models
      ensures Wired()
      ensures Snapshot() == Completed(old(Snapshot()), old(afterFuncs), failed).(deferred := [])
      ensures ok <==> !SomeHookFails(old(afterFuncs))
    {
      hide Completed, CompletedOne, SomeHookFails;
      ok := true;
      ghost var s := Snapshot();
      NothingYet(s, failed);
      for i := 0 to |afterFuncs|
        invariant Wired() && afterFuncs == s.deferred
        invariant Snapshot() == Completed(s, s.deferred[..i], failed)
        invariant ok <==> !SomeHookFails(s.deferred[..i])
      {
        var c := afterFuncs[i];
        ghost var done := s.deferred[..i];
        assert s.deferred[..i + 1] == done + [c];
        FailsJoin(done, c);
        CompletedStep(s, done, c, failed);
        Complete(c, failed);
        ok := ok && !c.hookFails;
      }
      assert s.deferred[..|s.deferred|] == s.deferred;
      afterFuncs := [];
    }

    method BeginTransaction()
      requires Valid() && !inTx
      modifies this
      ensures Valid()
      ensures Snapshot() == Begin(old(Snapshot()))
    {
      inTx, base, afterFuncs := true, rows, [];
    }

    /** Commits or rolls back, then runs the completions. */
    method EndTransaction(failed: bool) returns (ok: bool)
      requires Valid() && inTx
      modifies this, models
      ensures Valid()
      ensures Snapshot() == End(old(Snapshot()), failed)
      ensures ok <==> !failed && !SomeHookFails(old(afterFuncs))
    {
      if failed {
        rows := base;
      }
      inTx, base := false, {};
      var hooksOk := RunAfterFuncs(failed);
      ok := !failed && hooksOk;
    }

    method RunInTransaction(body: seq<Action>, fails: bool) returns (ok: bool)
      requires Valid()
      modifies this, models
      ensures Valid()
      ensures (Snapshot(), ok) == Exec(old(Snapshot()), Transaction(body, fails))
      decreases body, 1
    {
      if inTx {
        RunAll(body);
        ok := !fails;
      } else {
        ghost var s := Snapshot();
        BeginTransaction();
        RunAll(body);
        StaysWithinAll(Begin(s), body);
        ok := EndTransaction(fails);
      }
    }

    method DoWrite(kind: Kind, m: nat) returns (ok: bool)
      requires Valid() && m < |models|
      modifies this, models
      ensures Valid()
      ensures (Snapshot(), ok) == Write(old(Snapshot()), kind, m)
      ensures inTx == old(inTx)
    {
      match kind
      case Create =>
        ok := models[m].Id != "" && models[m].Id !in rows;
        if ok {
          rows := rows + {models[m].Id};
          MarkAsNotNew(m);
        }
      case Update =>
        ok := models[m].Id == models[m].lastSavedPK;
      case Delete =>
        ok := true;
        rows := rows - {models[m].lastSavedPK};
    }

    method RunBody(c: Call, a: Action) returns (ok: bool)
      requires Valid() && !a.Transaction? && c.model < |models|
      modifies this, models
      ensures Valid()
      ensures (Snapshot(), ok) == Body(old(Snapshot()), c, a)
      decreases a, 2
    {
      var own := a.wrapped && !inTx;
      if own {
        BeginTransaction();
      }
      ok := DoWrite(c.kind, c.model);
      if ok {
        ghost var w := Snapshot();
        RunAll(a.after);
        if own {
          StaysWithinAll(w, a.after);
        }
      }
      ok := ok && a.outcome.Done?;
      if own {
        ok := EndTransaction(!ok);
      }
    }

    method Fail(c: Call)
      requires Valid() && c.model < |models|
      modifies this, models
      ensures Valid()
      ensures Snapshot() == Failed(old(Snapshot()), c)
    {
      if c.kind.Create? {
        MarkAsNew(c.model);
      }
      fired := fired + [Hook(c, false)];
    }

    method Succeed(c: Call) returns (ok: bool)
      requires Valid() && c.model < |models|
      modifies this
      ensures Valid()
      ensures Snapshot() == Succeeded(old(Snapshot()), c)
      ensures ok == (old(inTx) || !c.hookFails)
    {
      if inTx {
        OnComplete(c);
        ok := true;
      } else {
        fired := fired + [Hook(c, true)];
        ok := !c.hookFails;
      }
    }

    /** Save and Delete. */
    method Run(a: Action) returns (ok: bool)
      requires Valid() && !a.Transaction?
      modifies this, models
      ensures Valid()
      ensures (Snapshot(), ok) == Exec(old(Snapshot()), a)
      decreases a, 3
    {
      hide Body, ExecAll, Failed, Succeeded;
      ghost var s := Snapshot();
      if a.model >= |models| {
        return false;
      }
      var kind := if a.Remove? then Delete else if models[a.model].IsNew() then Create else Update;
      var c := Call(calls, kind, a.model, a.hookFails);
      assert c == CallOf(s, a);
      calls := calls + 1;
      RunAll(a.before);
      ghost var s1 := Snapshot();
      assert s1 == Prepared(s, a);
      ok := false;
      if !a.outcome.FailBefore? && !(kind.Delete? && models[a.model].IsNew()) {
        ok := RunBody(c, a);
      }
      ghost var s2 := Snapshot();
      assert Refused(s1, kind, a) || (s2, ok) == Body(s1, c, a);
      if !ok {
        Fail(c);
      } else {
        ok := Succeed(c);
      }
    }

    method RunAll(actions: seq<Action>)
      requires Valid()
      modifies this, models
      ensures Valid()
      ensures Snapshot() == ExecAll(old(Snapshot()), actions)
      decreases actions, 0
    {
      if actions != [] {
        if actions[0].Transaction? {
          var _ := RunInTransaction(actions[0].body, actions[0].fails);
        } else {
          var _ := Run(actions[0]);
        }
        RunAll(actions[1..]);
      }
    }
  }

  lemma FailsJoin(calls: seq<Call>, c: Call)
    ensures SomeHookFails(calls + [c]) <==> SomeHookFails(calls) || c.hookFails
  {
    if SomeHookFails(calls) {
      var i :| 0 <= i < |calls| && calls[i].hookFails;
      assert (calls + [c])[i].hookFails;
    }
    if c.hookFails {
      assert (calls + [c])[|calls|].hookFails;
    }
  }

  lemma NothingYet(s: State, failed: bool)
    ensures Completed(s, s.deferred[..0], failed) == s
    ensures !SomeHookFails(s.deferred[..0])
  {
    assert s.fired + Resolved([], !failed) == s.fired;
  }

  lemma CompletedStep(s: State, calls: seq<Call>, c: Call, failed: bool)
    ensures Completed(s, calls + [c], failed) == CompletedOne(Completed(s, calls, failed), c, failed)
  {
    assert (calls + [c])[..|calls|] == calls;
    assert s.fired + Resolved(calls + [c], !failed) == s.fired + Resolved(calls, !failed) + [Hook(c, !failed)];
  }
}
