/** The batch processor (apis/batch.go, apis/record_crud.go): a continuation-passing recursion in
    which each handler runs the rest of the batch after its own write, inside one transaction. */
module Batch {
  import opened Sequences
  import opened Wrappers

  type Records = map<string, string>

  /** An upsert is a PUT that updates the record when it exists and creates it otherwise. */
  datatype Kind = Create | Update | Upsert | Delete | Unknown

  /** `generatedId` is the id a create without one gets. `rejected`: rules or hooks refuse the
      request before its write. `stopped`: a hook ends the chain without an error, a write
      or a response, whose recorder then says 200. `failsLater`: the handler returns an error
      after the rest of the batch went well. */
  datatype Request = Request(kind: Kind, id: string, generatedId: string, data: string,
                             rejected: bool, stopped: bool, failsLater: bool)

  datatype Reply = Reply(status: nat, id: string, body: string)

  // ---- one request, and a plain loop over them --------------------------------------------------------

  function Resolved(db: Records, r: Request): Kind {
    if !r.kind.Upsert? then r.kind else if r.id != "" && r.id in db then Update else Create
  }

  function IdOf(db: Records, r: Request): string {
    if Resolved(db, r).Create? && r.id == "" then r.generatedId else r.id
  }

  /** The write of one request and its reply; none when it fails before it hands on to the rest. */
  function Handled(db: Records, r: Request): Option<(Records, Reply)> {
    var kind, id := Resolved(db, r), IdOf(db, r);
    if kind.Unknown? || (!kind.Create? && id !in db) || r.rejected then None
    else if r.stopped then Some((db, Reply(200, "", "")))
    else
      match kind
      case Create => if id == "" || id in db then None else Some((db[id := r.data], Reply(200, id, r.data)))
      case Update => Some((db[id := r.data], Reply(200, id, r.data)))
      case _ => Some((db - {id}, Reply(204, id, "")))
  }

  /** How far a loop over the requests has come: it stops at the first that fails. */
  datatype Progress = Progress(db: Records, replies: seq<Reply>, failed: Option<nat>)

  function Looped(db: Records, batch: seq<Request>): (p: Progress)
    ensures p.failed.None? ==> |p.replies| == |batch|
    ensures p.failed.Some? ==> p.failed.value == |p.replies| < |batch|
  {
    if batch == [] then Progress(db, [], None)
    else
      var n := |batch| - 1;
      var p := Looped(db, batch[..n]);
      if p.failed.Some? then p
      else
        match Handled(p.db, batch[n])
        case None => p.(failed := Some(n))
        case Some((next, reply)) => Progress(next, p.replies + [reply], None)
  }

  /** The last request that fails once the rest went well: the innermost of the nested handlers. */
  function FailsLater(batch: seq<Request>): (r: Option<nat>)
    ensures r.None? <==> forall k :: 0 <= k < |batch| ==> !batch[k].failsLater
    ensures r.Some? ==> r.value < |batch| && batch[r.value].failsLater
    ensures r.Some? ==> forall k :: r.value < k < |batch| ==> !batch[k].failsLater
  {
    if batch == [] then None
    else if batch[|batch| - 1].failsLater then Some(|batch| - 1)
    else FailsLater(batch[..|batch| - 1])
  }

  /** The request a failed batch is blamed on: the one that failed before the rest could run or,
      failing that, the deepest one that failed after it. */
  function Blamed(db: Records, batch: seq<Request>): Option<nat> {
    var p := Looped(db, batch);
    if p.failed.Some? then p.failed else FailsLater(batch)
  }

  // ---- the loop from its first request on -------------------------------------------------------------

  lemma {:induction false} LoopedFromHead(db: Records, batch: seq<Request>)
    requires batch != []
    ensures
      match Handled(db, batch[0])
      case None => Looped(db, batch) == Progress(db, [], Some(0))
      case Some((next, reply)) =>
        var rest := Looped(next, batch[1..]);
        Looped(db, batch) == Progress(rest.db, [reply] + rest.replies,
                                      if rest.failed.Some? then Some(rest.failed.value + 1) else None)
    decreases |batch|
  {
    hide Handled, Resolved, IdOf;
    var n := |batch| - 1;
    if n == 0 {
      assert Looped(db, batch[..0]) == Progress(db, [], None);
    } else {
      LoopedFromHead(db, batch[..n]);
      assert batch[..n][1..] == batch[1..][..n - 1];
    }
  }

  lemma {:induction false} FailsLaterFromHead(batch: seq<Request>)
    requires batch != []
    ensures
      var rest := FailsLater(batch[1..]);
      FailsLater(batch) == if rest.Some? then Some(rest.value + 1)
                           else if batch[0].failsLater then Some(0) else None
  {
    var rest := FailsLater(batch[1..]);
    assert forall k :: 0 <= k < |batch| - 1 ==> batch[1..][k] == batch[k + 1];
    var all := FailsLater(batch);
    if all.Some? && all.value > 0 {
      assert batch[1..][all.value - 1].failsLater;
    }
  }

  /** The blame, request by request, as the nested handlers see it. */
  lemma BlamedFromHead(db: Records, batch: seq<Request>)
    requires batch != []
    ensures
      match Handled(db, batch[0])
      case None => Blamed(db, batch) == Some(0)
      case Some((next, _)) =>
        var rest := Blamed(next, batch[1..]);
        Blamed(db, batch) == if rest.Some? then Some(rest.value + 1)
                             else if batch[0].failsLater then Some(0) else None
  {
    hide Handled, Looped, FailsLater;
    LoopedFromHead(db, batch);
    FailsLaterFromHead(batch);
  }

  /** A loop that has no one to blame handled every request on the state its predecessors left. */
  lemma {:induction false} RepliesBelongToRequests(db: Records, batch: seq<Request>, j: nat)
    requires Looped(db, batch).failed.None? && j < |batch|
    ensures
      var before := Looped(db, batch[..j]);
      && before.failed.None?
      && Handled(before.db, batch[j]).Some?
      && Handled(before.db, batch[j]).value.1 == Looped(db, batch).replies[j]
      && Handled(before.db, batch[j]).value.0 == Looped(db, batch[..j + 1]).db
    decreases |batch|
  {
    var n := |batch| - 1;
    if j < n {
      RepliesBelongToRequests(db, batch[..n], j);
      assert batch[..n][..j] == batch[..j] && batch[..n][..j + 1] == batch[..j + 1];
    } else {
      assert batch[..j + 1] == batch && batch[..j + 1][..n] == batch[..n];
    }
  }

  // ---- what the requests do to the records ------------------------------------------------------------

  /** The record a request is about, given by the client or made up for it. */
  function Target(r: Request): string {
    if (r.kind.Create? || r.kind.Upsert?) && r.id == "" then r.generatedId else r.id
  }

  /** A create needs a new id, an update or delete an existing one, an upsert is either; a stopped
      chain changes nothing, a delete removes the record and the others store the data. */
  lemma RequestIsHandled(db: Records, r: Request)
    ensures
      var id, h := Target(r), Handled(db, r);
      var creates := r.kind.Create? || (r.kind.Upsert? && (r.id == "" || r.id !in db));
      && (h.Some? <==>
            && !r.kind.Unknown? && !r.rejected
            && if creates then r.stopped || (id != "" && id !in db) else id in db)
      && (h.Some? ==>
            var (next, reply) := h.value;
            && reply == (if r.stopped then Reply(200, "", "")
                         else if r.kind.Delete? then Reply(204, id, "") else Reply(200, id, r.data))
            && next.Keys == (if r.stopped then db.Keys
                             else if r.kind.Delete? then db.Keys - {id} else db.Keys + {id})
            && forall k :: k in next ==>
                 next[k] == if k == id && !r.stopped then r.data else db[k])
  {
  }

  predicate Touches(r: Request, id: string) {
    !r.stopped && Target(r) == id
  }

  /** In a batch that goes through, the last request about a record decides whether it exists
      and what it holds; a record no request is about stays as it was. */
  lemma {:induction false} LastRequestDecides(db: Records, batch: seq<Request>, id: string)
    requires Looped(db, batch).failed.None?
    ensures
      var after := Looped(db, batch).db;
      && ((forall i :: 0 <= i < |batch| ==> !Touches(batch[i], id)) ==>
            (id in after <==> id in db) && (id in db ==> after[id] == db[id]))
      && forall i :: 0 <= i < |batch| && Touches(batch[i], id)
                     && (forall j :: i < j < |batch| ==> !Touches(batch[j], id)) ==>
           (id in after <==> !batch[i].kind.Delete?) && (id in after ==> after[id] == batch[i].data)
    decreases |batch|
  {
    if batch != [] {
      hide Handled, Target;
      var n := |batch| - 1;
      LastRequestDecides(db, batch[..n], id);
      RequestIsHandled(Looped(db, batch[..n]).db, batch[n]);
      assert forall i :: 0 <= i < n ==> batch[..n][i] == batch[i];
    }
  }

  // ---- the code ---------------------------------------------------------------------------------------

  ghost predicate SwappedUpTo<T>(was: seq<T>, now: seq<T>, i: nat) {
    && |now| == |was| && 2 * i <= |was| + 1
    && forall k :: 0 <= k < |was| ==> now[k] == was[if i <= k < |was| - i then k else |was| - 1 - k]
  }

  lemma SwapStep<T>(was: seq<T>, now: seq<T>, i: nat)
    requires SwappedUpTo(was, now, i) && 2 * i < |was|
    ensures SwappedUpTo(was, now[i := now[|now| - 1 - i]][|now| - 1 - i := now[i]], i + 1)
  {
  }

  class BatchProcessor {
    var db: Records
    var results: seq<Reply>
    var failedIndex: nat

    constructor (db: Records)
      ensures this.db == db && results == [] && failedIndex == 0
    {
      this.db, results, failedIndex := db, [], 0;
    }

    /** The whole batch in one transaction. A batch succeeds exactly when a plain loop over it
        does and no handler fails later; then the state and the results are those of the loop,
        in its order. Otherwise nothing is committed, and a processor that has not blamed a
        request before blames the right one. */
    method Process(batch: seq<Request>) returns (ok: bool)
      modifies this
      ensures ok <==> Blamed(old(db), batch).None?
      ensures ok ==> db == Looped(old(db), batch).db && results == Looped(old(db), batch).replies
      ensures ok ==> failedIndex == old(failedIndex)
      ensures !ok ==> db == old(db)
      ensures !ok ==> failedIndex == if old(failedIndex) == 0 then Blamed(old(db), batch).value else old(failedIndex)
    {
      results := [];
      var committed := db;
      ok := Run(batch, 0);
      if ok {
        Reverse();
      } else {
        db := committed;
      }
    }

    /** The recursion: the handler of the first request calls back for the rest. `i` is the
        position of the first request in the whole batch. */
    method Run(batch: seq<Request>, i: nat) returns (ok: bool)
      modifies this
      ensures ok <==> Blamed(old(db), batch).None?
      ensures ok ==> db == Looped(old(db), batch).db
      ensures ok ==> results == old(results) + Reversed(Looped(old(db), batch).replies)
      ensures ok ==> failedIndex == old(failedIndex)
      ensures !ok ==> failedIndex == if old(failedIndex) == 0 && Blamed(old(db), batch).value > 0
                                     then i + Blamed(old(db), batch).value else old(failedIndex)
      decreases |batch|
    {
      if batch == [] {
        return true;
      }
      BlamedFromHead(db, batch);
      LoopedFromHead(db, batch);
      var handled := Handled(db, batch[0]);
      if handled.None? {
        return false;
      }
      db := handled.value.0;
      if |batch| > 1 {
        ok := Run(batch[1..], i + 1);
        if !ok && failedIndex == 0 {
          failedIndex := i + 1;
        }
        if !ok {
          return false;
        }
      }
      if batch[0].failsLater {
        return false;
      }
      results := results + [handled.value.1];
      return true;
    }

    method Reverse()
      modifies `results
      ensures results == Reversed(old(results))
    {
      var i, j := 0, |results| - 1;
      while i < j
        invariant i <= j + 1 && j == |results| - 1 - i
        invariant SwappedUpTo(old(results), results, i)
      {
        SwapStep(old(results), results, i);
        results := results[i := results[j]][j := results[i]];
        i, j := i + 1, j - 1;
      }
    }
  }

  /** A processor used again after a failure names the old request, unless that was the first of
      its batch or the new failure is at the same place: the index is kept once it is not zero. */
  method StaleBlame(db: Records, first: seq<Request>, second: seq<Request>) returns (reported: nat)
    requires Blamed(db, first).Some? && Blamed(db, second).Some?
    ensures reported == Blamed(db, second).value <==>
            Blamed(db, first).value == 0 || Blamed(db, second) == Blamed(db, first)
  {
    var p := new BatchProcessor(db);
    var _ := p.Process(first);
    var _ := p.Process(second);
    reported := p.failedIndex;
  }
}
