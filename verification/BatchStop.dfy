/** The stop protocol around the batch recursion (apis/batch.go): the request goroutine waits for
    the worker's result, a timeout or a cancelled request, and stops the worker through a channel
    with room for one token. Every interleaving of the two is a run of this machine. */
module BatchStop {
  import opened Wrappers

  /** The worker: at the entry of the recursion for request i; in the handler of request i, with
      its write, if any, still to come; back in that handler after the rest of the batch; about to send
      its result; gone. */
  datatype Worker =
    | Entry(i: nat)
    | Handling(i: nat)
    | Unwinding(i: nat, ok: bool)
    | Sending(ok: bool)
    | Exited

  /** The request goroutine: in its select; with an outcome, before the deferred send of the
      token; after it; with the transaction ended. */
  datatype Main = Waiting | Decided(success: bool) | Signalled(success: bool) | Ended(success: bool)

  /** `errCh` and `stopCh` hold what is in the two channels, `started`, `skipped` and `results`
      count requests; `inTx` are the writes of the open transaction and `committed` those that
      survive it. */
  datatype State = State(worker: Worker, main: Main, errCh: Option<bool>, stopCh: bool,
                         started: nat, inTx: nat, skipped: nat, results: nat, committed: nat)

  function Start(): State {
    State(Entry(0), Waiting, None, false, 0, 0, 0, 0, 0)
  }

  // ---- the steps, for a batch of n requests -----------------------------------------------------------

  /** Returning from the recursion for request i. */
  function Returned(i: nat, ok: bool): Worker {
    if i == 0 then Sending(ok) else Unwinding(i - 1, ok)
  }

  /** The select at the entry: a token in the channel is taken, and nothing is started. */
  predicate Enters(n: nat, s: State, t: State) {
    && s.worker.Entry?
    && t == if s.stopCh then s.(worker := Returned(s.worker.i, true), stopCh := false)
            else if s.worker.i >= n then s.(worker := Returned(s.worker.i, true))
            else s.(worker := Handling(s.worker.i), started := s.started + 1)
  }

  predicate TxOpen(s: State) {
    !s.main.Ended?
  }

  /** The call back for the rest. */
  function HandedOn(n: nat, i: nat): Worker {
    if i + 1 == n then Unwinding(i, true) else Entry(i + 1)
  }

  /** The write, and the rest; nothing is written once the transaction ended. */
  predicate Writes(n: nat, s: State, t: State) {
    s.worker.Handling? && TxOpen(s) && t == s.(inTx := s.inTx + 1, worker := HandedOn(n, s.worker.i))
  }

  /** A hook that ends the chain without an error keeps the request from its write, but not the
      rest of the batch. */
  predicate Skips(n: nat, s: State, t: State) {
    s.worker.Handling? && t == s.(skipped := s.skipped + 1, worker := HandedOn(n, s.worker.i))
  }

  predicate FailsEarly(n: nat, s: State, t: State) {
    && s.worker.Handling?
    && t == s.(worker := Returned(s.worker.i, false))
  }

  /** After the rest: an error of the rest is handed on, else the handler ends, well or not. */
  predicate Unwinds(n: nat, s: State, t: State) {
    && s.worker.Unwinding?
    && (|| t == s.(worker := Returned(s.worker.i, false))
        || (s.worker.ok && t == s.(worker := Returned(s.worker.i, true), results := s.results + 1)))
  }

  predicate WorkerSends(n: nat, s: State, t: State) {
    && s.worker.Sending? && s.errCh.None?
    && t == s.(worker := Exited, errCh := Some(s.worker.ok))
  }

  predicate MainReceives(n: nat, s: State, t: State) {
    && s.main.Waiting? && s.errCh.Some?
    && t == s.(main := Decided(s.errCh.value), errCh := None)
  }

  predicate MainGivesUp(n: nat, s: State, t: State) {
    s.main.Waiting? && t == s.(main := Decided(false))
  }

  predicate MainSignals(n: nat, s: State, t: State) {
    s.main.Decided? && !s.stopCh && t == s.(main := Signalled(s.main.success), stopCh := true)
  }

  predicate TransactionEnds(n: nat, s: State, t: State) {
    && s.main.Signalled?
    && t == s.(main := Ended(s.main.success), inTx := 0, committed := if s.main.success then s.inTx else 0)
  }

  predicate WorkerSteps(n: nat, s: State, t: State) {
    || Enters(n, s, t) || Writes(n, s, t) || Skips(n, s, t)
    || FailsEarly(n, s, t) || Unwinds(n, s, t) || WorkerSends(n, s, t)
  }

  predicate Next(n: nat, s: State, t: State) {
    || WorkerSteps(n, s, t)
    || MainReceives(n, s, t) || MainGivesUp(n, s, t) || MainSignals(n, s, t) || TransactionEnds(n, s, t)
  }

  ghost predicate Run(n: nat, run: seq<State>) {
    run != [] && run[0] == Start() && forall k :: 0 <= k < |run| - 1 ==> Next(n, run[k], run[k + 1])
  }

  // ---- what every reachable state keeps ---------------------------------------------------------------

  predicate Signal(s: State) {
    s.main.Signalled? || s.main.Ended?
  }

  /** The token was sent and has been taken. */
  predicate Taken(s: State) {
    Signal(s) && !s.stopCh
  }

  predicate Inv(n: nat, s: State) {
    && (s.stopCh ==> Signal(s))
    && (s.errCh.Some? ==> s.worker.Exited?)
    && (s.worker.Exited? && s.main.Waiting? ==> s.errCh.Some?)
    && (Taken(s) ==> !s.worker.Entry? && !s.worker.Handling?)
    && Counts(n, s)
    && (s.main.Waiting? && s.errCh == Some(true) ==> Complete(n, s))
    && (Success(s) ==> s.worker.Exited? && Complete(n, s))
    && s.committed == (if s.main.Ended? && s.main.success then n - s.skipped else 0)
  }

  predicate Success(s: State) {
    !s.main.Waiting? && s.main.success
  }

  /** All requests are written or skipped, and have their results. */
  predicate Complete(n: nat, s: State) {
    s.started == n && s.results == n && s.skipped <= n && (!s.main.Ended? ==> s.inTx + s.skipped == n)
  }

  /** Where the worker is and what it has done, as long as the transaction is open; once it was
      stopped or failed the results are no longer complete. */
  predicate Counts(n: nat, s: State) {
    && s.started <= n
    && match s.worker
       case Entry(i) => s.started == i && (i < n || n == 0) && s.results == 0 && (TxOpen(s) ==> s.inTx + s.skipped == i)
       case Handling(i) => s.started == i + 1 && s.results == 0 && (TxOpen(s) ==> s.inTx + s.skipped == i)
       case Unwinding(i, ok) =>
         i < s.started && (!Signal(s) && ok ==> s.started == n && s.inTx + s.skipped == n && s.results + i + 1 == n)
       case Sending(ok) => !Signal(s) && ok ==> s.started == n && s.inTx + s.skipped == n && s.results == n
       case Exited => true
  }

  lemma WorkerKeepsInv(n: nat, s: State, t: State)
    requires Inv(n, s)
    requires WorkerSteps(n, s, t)
    ensures Inv(n, t) && (Signal(s) ==> Signal(t) && t.started == s.started)
  {
  }

  lemma MainKeepsInv(n: nat, s: State, t: State)
    requires Inv(n, s)
    requires MainReceives(n, s, t) || MainGivesUp(n, s, t) || MainSignals(n, s, t) || TransactionEnds(n, s, t)
    ensures Inv(n, t) && (Signal(s) ==> Signal(t)) && t.started == s.started
  {
  }

  lemma {:induction false} Reachable(n: nat, run: seq<State>, k: nat)
    requires Run(n, run) && k < |run|
    ensures Inv(n, run[k])
  {
    if k > 0 {
      hide Inv, Next;
      Reachable(n, run, k - 1);
      assert Next(n, run[k - 1], run[k - 1 + 1]);
      StepKeepsInv(n, run[k - 1], run[k]);
    }
  }

  lemma StepKeepsInv(n: nat, s: State, t: State)
    requires Inv(n, s) && Next(n, s, t)
    ensures Inv(n, t) && (Signal(s) ==> Signal(t) && t.started == s.started)
  {
    hide Inv, Signal, WorkerSteps;
    hide MainReceives, MainGivesUp, MainSignals, TransactionEnds;
    if MainReceives(n, s, t) || MainGivesUp(n, s, t) || MainSignals(n, s, t) || TransactionEnds(n, s, t) {
      MainKeepsInv(n, s, t);
    } else {
      WorkerKeepsInv(n, s, t);
    }
  }

  /** In every interleaving no request starts once the stop token is in the channel. */
  lemma {:induction false} NothingStartsAfterTheToken(n: nat, run: seq<State>, k: nat, m: nat)
    requires Run(n, run) && k <= m < |run| && Signal(run[k])
    ensures Signal(run[m]) && run[m].started == run[k].started
  {
    hide Inv, Signal, Next;
    if k < m {
      NothingStartsAfterTheToken(n, run, k, m - 1);
      Reachable(n, run, m - 1);
      assert Next(n, run[m - 1], run[m - 1 + 1]);
      StepKeepsInv(n, run[m - 1], run[m]);
    }
  }

  /** The worker's send finds room in its channel, and so does the deferred one of the token: the
      only goroutine that ever waits is the request's, and it finds a result when the worker is
      gone. */
  lemma SendsNeverBlock(n: nat, run: seq<State>, k: nat)
    requires Run(n, run) && k < |run|
    ensures run[k].worker.Sending? ==> run[k].errCh.None?
    ensures run[k].main.Decided? ==> !run[k].stopCh
    ensures run[k].main.Waiting? && run[k].worker.Exited? ==> run[k].errCh.Some?
    ensures !run[k].worker.Exited? ==> exists t :: WorkerSteps(n, run[k], t)
  {
    Reachable(n, run, k);
    var s := run[k];
    match s.worker
    case Entry(i) =>
      var t := if s.stopCh then s.(worker := Returned(i, true), stopCh := false)
               else if i >= n then s.(worker := Returned(i, true))
               else s.(worker := Handling(i), started := s.started + 1);
      assert WorkerSteps(n, s, t);
    case Handling(i) => assert WorkerSteps(n, s, s.(worker := Returned(i, false)));
    case Unwinding(i, _) => assert WorkerSteps(n, s, s.(worker := Returned(i, false)));
    case Sending(ok) => assert WorkerSteps(n, s, s.(worker := Exited, errCh := Some(ok)));
    case Exited =>
  }

  /** The steps the worker has at most before it. */
  function Rank(n: nat, s: State): nat {
    match s.worker
    case Entry(i) => n + 2 + 2 * (if i < n then n - i else 0)
    case Handling(i) => n + 1 + 2 * (if i < n then n - i else 0)
    case Unwinding(i, _) => i + 2
    case Sending(_) => 1
    case Exited => 0
  }

  /** The steps the worker has taken. */
  function Moves(run: seq<State>): nat {
    if |run| < 2 then 0
    else Moves(run[..|run| - 1]) + if run[|run| - 2].worker == run[|run| - 1].worker then 0 else 1
  }

  lemma StepLowersRank(n: nat, s: State, t: State)
    requires Inv(n, s) && Next(n, s, t)
    ensures t.worker == s.worker || Rank(n, t) < Rank(n, s)
    ensures WorkerSteps(n, s, t) ==> t.worker != s.worker
  {
  }

  /** In every interleaving the worker is gone after at most 3n + 2 steps of its own, also when it
      is stopped or the transaction has ended under it. */
  lemma {:induction false} WorkerFinishes(n: nat, run: seq<State>)
    requires Run(n, run)
    ensures Moves(run) + Rank(n, run[|run| - 1]) <= 3 * n + 2
  {
    if |run| > 1 {
      hide Inv, Next, Rank;
      var before := run[..|run| - 1];
      RunPrefix(n, run);
      WorkerFinishes(n, before);
      Reachable(n, before, |before| - 1);
      StepLowersRank(n, before[|before| - 1], run[|run| - 1]);
    }
  }

  lemma RunPrefix(n: nat, run: seq<State>)
    requires Run(n, run) && |run| > 1
    ensures Run(n, run[..|run| - 1]) && Next(n, run[|run| - 2], run[|run| - 1])
  {
    assert Next(n, run[|run| - 2], run[|run| - 2 + 1]);
    var before := run[..|run| - 1];
    forall k | 0 <= k < |before| - 1 ensures Next(n, before[k], before[k + 1]) {
      assert Next(n, run[k], run[k + 1]);
    }
  }

  /** When the transaction has ended either the whole batch was handled, has all its results and
      its writes are committed, or none is; a timeout, a cancelled request and a failure are the
      latter. */
  lemma AllOrNothing(n: nat, run: seq<State>, k: nat)
    requires Run(n, run) && k < |run| && run[k].main.Ended?
    ensures run[k].main.success ==> run[k].committed + run[k].skipped == run[k].results == run[k].started == n
    ensures !run[k].main.success ==> run[k].committed == 0
  {
    Reachable(n, run, k);
  }

  /** The outcome is a success only when the request goroutine took the worker's result. */
  lemma GivingUpIsFailure(n: nat, run: seq<State>, k: nat)
    requires Run(n, run) && k + 1 < |run|
    requires run[k].main.Waiting? && !run[k + 1].main.Waiting?
    ensures run[k + 1].main.success ==> run[k].errCh == Some(true) && run[k].worker.Exited?
  {
    Reachable(n, run, k);
    assert Next(n, run[k], run[k + 1]);
  }

  // ---- success is reached -----------------------------------------------------------------------------

  lemma RunsOn(n: nat, run: seq<State>, t: State)
    requires Run(n, run) && Next(n, run[|run| - 1], t)
    ensures Run(n, run + [t])
  {
    var longer := run + [t];
    forall k | 0 <= k < |longer| - 1 ensures Next(n, longer[k], longer[k + 1]) {
      if k < |run| - 1 {
        assert Next(n, run[k], run[k + 1]);
      }
    }
  }

  /** How many of the first i requests a hook stops. */
  function Stopped(stops: nat -> bool, i: nat): (c: nat)
    ensures c <= i
  {
    if i == 0 then 0 else Stopped(stops, i - 1) + if stops(i - 1) then 1 else 0
  }

  /** The state after i undisturbed requests. */
  function Written(n: nat, i: nat, stops: nat -> bool): State {
    var c := Stopped(stops, i);
    State(if 0 < i == n then Unwinding(i - 1, true) else Entry(i), Waiting, None, false, i, i - c, c, 0, 0)
  }

  lemma {:induction false} WritesOn(n: nat, i: nat, stops: nat -> bool) returns (run: seq<State>)
    requires i <= n
    ensures Run(n, run) && run[|run| - 1] == Written(n, i, stops)
    decreases i
  {
    if i == 0 {
      run := [Start()];
    } else {
      run := WritesOn(n, i - 1, stops);
      var s, t := Written(n, i - 1, stops), Written(n, i, stops);
      var handling := s.(worker := Handling(i - 1), started := i);
      assert Enters(n, s, handling);
      RunsOn(n, run, handling);
      assert if stops(i - 1) then Skips(n, handling, t) else Writes(n, handling, t);
      RunsOn(n, run + [handling], t);
      run := run + [handling] + [t];
    }
  }

  /** The state after the whole batch and i of its results. */
  function Unwound(n: nat, i: nat, stops: nat -> bool): State {
    var c := Stopped(stops, n);
    State(if i < n then Unwinding(n - 1 - i, true) else Sending(true), Waiting, None, false, n, n - c, c, i, 0)
  }

  lemma {:induction false} UnwindsOn(n: nat, i: nat, stops: nat -> bool) returns (run: seq<State>)
    requires i <= n
    ensures Run(n, run) && run[|run| - 1] == Unwound(n, i, stops)
    decreases i
  {
    if i == 0 {
      run := WritesOn(n, n, stops);
      if n == 0 {
        assert Enters(n, Written(n, n, stops), Unwound(n, 0, stops));
        RunsOn(n, run, Unwound(n, 0, stops));
        run := run + [Unwound(n, 0, stops)];
      }
    } else {
      run := UnwindsOn(n, i - 1, stops);
      assert Unwinds(n, Unwound(n, i - 1, stops), Unwound(n, i, stops));
      RunsOn(n, run, Unwound(n, i, stops));
      run := run + [Unwound(n, i, stops)];
    }
  }

  /** A batch of any length, whichever of its requests a hook stops, can end with the writes of
      all others committed. */
  lemma SuccessIsReached(n: nat, stops: nat -> bool) returns (run: seq<State>)
    ensures Run(n, run)
    ensures var t := run[|run| - 1];
      t.main == Ended(true) && t.worker.Exited? && t.skipped == Stopped(stops, n) && t.committed == n - t.skipped
  {
    run := UnwindsOn(n, n, stops);
    var s := Unwound(n, n, stops);
    var sent := s.(worker := Exited, errCh := Some(true));
    var received := sent.(main := Decided(true), errCh := None);
    var signalled := received.(main := Signalled(true), stopCh := true);
    var ended := signalled.(main := Ended(true), inTx := 0, committed := s.inTx);
    assert WorkerSends(n, s, sent) && MainReceives(n, sent, received);
    assert MainSignals(n, received, signalled) && TransactionEnds(n, signalled, ended);
    RunsOn(n, run, sent);
    RunsOn(n, run + [sent], received);
    RunsOn(n, run + [sent] + [received], signalled);
    RunsOn(n, run + [sent] + [received] + [signalled], ended);
    run := run + [sent] + [received] + [signalled] + [ended];
  }
}
