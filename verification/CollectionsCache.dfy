/** The global collections cache (core/collection_query.go, core/collection_model.go): saves and
    deletes of collections, alone or in transactions, and the lookups by name or id. */
module CollectionsCache {
  import opened Names
  import opened Wrappers

  /** Collection names are made of ASCII word characters. */
  type Name = s: string | forall i :: 0 <= i < |s| ==> s[i] < '\U{80}' witness ""

  datatype Collection = Collection(id: string, name: Name, definition: string)

  type Rows = map<string, Collection>

  /** How an operation ends: with an error before its write, with one after it, or well. */
  datatype Outcome = FailBefore | FailAfter | Done

  /** A save or delete of a collection runs `inside` in its transaction, after its write, and
      `after` once that transaction has ended (the views saved again). */
  datatype Action =
    | Save(collection: Collection, outcome: Outcome, inside: seq<Action>, after: seq<Action>)
    | Delete(id: string, outcome: Outcome, inside: seq<Action>, after: seq<Action>)
    | Transaction(body: seq<Action>, fails: bool)

  /** `rows` is what the current database handle sees, `base` what a rollback returns to,
      `waiting` the number of after-hooks the open transaction holds back. */
  datatype State = State(rows: Rows, inTx: bool, base: Rows, cache: Rows, waiting: nat)

  // ---- the specification ------------------------------------------------------------------------------

  function Begin(s: State): State {
    s.(inTx := true, base := s.rows, waiting := 0)
  }

  /** After a rollback every waiting hook is an error hook, which reloads from the parent. */
  function End(s: State, failed: bool): State {
    if failed then
      s.(inTx := false, base := map[], rows := s.base, waiting := 0,
         cache := if s.waiting > 0 then s.base else s.cache)
    else s.(inTx := false, base := map[], waiting := 0)
  }

  function Reloaded(s: State): State {
    s.(cache := s.rows)
  }

  function Written(s: State, a: Action): State
    requires !a.Transaction?
  {
    match a
    case Save(c, _, _, _) => s.(rows := s.rows[c.id := c])
    case Delete(id, _, _, _) => s.(rows := s.rows - {id})
  }

  function Inside(s: State, a: Action): State
    requires !a.Transaction?
    decreases a, 1
  {
    var own := !s.inTx;
    var s1 := ExecAll(Written(if own then Begin(s) else s, a), a.inside);
    if own then End(s1, a.outcome.FailAfter?) else s1
  }

  function Exec(s: State, a: Action): State
    decreases a, 2
  {
    if a.Transaction? then
      if s.inTx then ExecAll(s, a.body) else End(ExecAll(Begin(s), a.body), a.fails)
    else
      match a.outcome
      case FailBefore => Reloaded(s)
      case FailAfter => Reloaded(Inside(s, a))
      case Done =>
        var t := Reloaded(ExecAll(Inside(s, a), a.after));
        if t.inTx then t.(waiting := t.waiting + 1) else t
  }

  function ExecAll(s: State, actions: seq<Action>): State
    decreases actions, 0
  {
    if actions == [] then s else ExecAll(Exec(s, actions[0]), actions[1..])
  }

  /** A save or delete that returned no error, at any depth of nesting. */
  predicate SomeDone(a: Action)
    decreases a, 1
  {
    match a
    case Transaction(body, _) => SomeDoneAll(body)
    case _ => a.outcome.Done? || (a.outcome.FailAfter? && SomeDoneAll(a.inside))
  }

  predicate SomeDoneAll(actions: seq<Action>)
    decreases actions, 0
  {
    actions != [] && (SomeDone(actions[0]) || SomeDoneAll(actions[1..]))
  }

  // ---- coherence --------------------------------------------------------------------------------------

  predicate Coherent(s: State) {
    s.cache == s.rows
  }

  /** What happens to the state of an open transaction as `actions` run. */
  ghost predicate Open(s: State, t: State, someDone: bool) {
    && t.inTx && t.base == s.base && s.waiting <= t.waiting
    && (Coherent(s) ==> Coherent(t))
    && (s.waiting < t.waiting <==> someDone)
  }

  lemma {:induction false} StaysOpen(s: State, a: Action)
    requires s.inTx
    ensures Open(s, Exec(s, a), SomeDone(a))
    decreases a, 1
  {
    if a.Transaction? {
      StaysOpenAll(s, a.body);
    } else if !a.outcome.FailBefore? {
      var w := Written(s, a);
      StaysOpenAll(w, a.inside);
      if a.outcome.Done? {
        StaysOpenAll(ExecAll(w, a.inside), a.after);
      }
    }
  }

  /** An open transaction sees what the cache holds, and some hook waits for its end exactly
      when some save or delete in it went well. */
  lemma {:induction false} StaysOpenAll(s: State, actions: seq<Action>)
    requires s.inTx
    ensures Open(s, ExecAll(s, actions), SomeDoneAll(actions))
    decreases actions, 0
  {
    if actions != [] {
      StaysOpen(s, actions[0]);
      StaysOpenAll(Exec(s, actions[0]), actions[1..]);
    }
  }

  lemma {:induction false} StaysClosed(s: State, a: Action)
    requires !s.inTx && s.base == map[] && s.waiting == 0
    ensures var t := Exec(s, a); !t.inTx && t.base == map[] && t.waiting == 0
    decreases a, 1
  {
    if !a.Transaction? && a.outcome.Done? {
      StaysOpenAll(Written(Begin(s), a), a.inside);
      StaysClosedAll(Inside(s, a), a.after);
    }
  }

  lemma {:induction false} StaysClosedAll(s: State, actions: seq<Action>)
    requires !s.inTx && s.base == map[] && s.waiting == 0
    ensures var t := ExecAll(s, actions); !t.inTx && t.base == map[] && t.waiting == 0
    decreases actions, 0
  {
    if actions != [] {
      StaysClosed(s, actions[0]);
      StaysClosedAll(Exec(s, actions[0]), actions[1..]);
    }
  }

  /** A transaction that rolls back without one successful save or delete, although its failed
      ones left changes behind in it. */
  predicate LeavesStale(s: State, a: Action) {
    a.Transaction? && a.fails && !SomeDoneAll(a.body) && ExecAll(Begin(s), a.body).rows != s.rows
  }

  /** With no transaction open the cache holds the committed collections after a save, a delete
      or a transaction, exactly unless it is one of those. */
  lemma CoherentAfter(s: State, a: Action)
    requires !s.inTx && Coherent(s)
    ensures Coherent(Exec(s, a)) <==> !LeavesStale(s, a)
  {
    if a.Transaction? {
      StaysOpenAll(Begin(s), a.body);
    }
  }

  /** Whatever the cache held before, a save or delete outside a transaction and a transaction in
      which one of them went well leave it right. */
  lemma Heals(s: State, a: Action)
    requires !s.inTx && (a.Transaction? ==> a.fails && SomeDoneAll(a.body))
    ensures Coherent(Exec(s, a))
  {
    if a.Transaction? {
      StaysOpenAll(Begin(s), a.body);
    }
  }

  /** Every operation of a transaction succeeds, at any depth. */
  predicate AllDone(a: Action)
    decreases a, 1
  {
    match a
    case Transaction(body, _) => AllDoneAll(body)
    case _ => a.outcome.Done?
  }

  predicate AllDoneAll(actions: seq<Action>)
    decreases actions, 0
  {
    actions == [] || (AllDone(actions[0]) && AllDoneAll(actions[1..]))
  }

  lemma {:induction false} NothingHappens(s: State, actions: seq<Action>)
    requires s.inTx && AllDoneAll(actions) && !SomeDoneAll(actions)
    ensures ExecAll(s, actions) == s
    decreases actions
  {
    if actions != [] {
      NothingHappens(s, actions[0].body);
      NothingHappens(s, actions[1..]);
    }
  }

  /** A run whose transactions hold only saves and deletes that succeed. */
  predicate WellBehaved(run: seq<Action>) {
    forall i :: 0 <= i < |run| && run[i].Transaction? ==> AllDoneAll(run[i].body)
  }

  /** Such a run, from a right cache, ends with a right cache: whenever no transaction is open,
      the cache equals the committed collections. */
  lemma {:induction false} CoherentRuns(s: State, run: seq<Action>)
    requires !s.inTx && s.base == map[] && s.waiting == 0
    requires Coherent(s) && WellBehaved(run)
    ensures Coherent(ExecAll(s, run)) && !ExecAll(s, run).inTx
    decreases |run|
  {
    if run != [] {
      var a := run[0];
      if a.Transaction? && !SomeDoneAll(a.body) {
        NothingHappens(Begin(s), a.body);
      }
      CoherentAfter(s, a);
      StaysClosed(s, a);
      assert forall i :: 0 <= i < |run[1..]| ==> run[1..][i] == run[i + 1];
      CoherentRuns(Exec(s, a), run[1..]);
    }
  }

  /** The stale case exists: a save that fails after its write, in a transaction that rolls back. */
  lemma RollbackCanLeaveStaleCache()
    ensures
      var c := Collection("c1", "posts", "");
      var run := Transaction([Save(c, FailAfter, [], [])], true);
      var s := State(map[], false, map[], map[], 0);
      var t := Exec(s, run);
      Coherent(s) && t.rows == map[] && t.cache == map["c1" := c]
  {
    var c := Collection("c1", "posts", "");
    var save := Save(c, FailAfter, [], []);
    var s := State(map[], false, map[], map[], 0);
    var b := Begin(s);
    assert Inside(b, save) == Written(b, save);
    var u := Reloaded(Written(b, save));
    assert Exec(b, save) == u;
    assert ExecAll(b, [save]) == u;
    assert u.cache == map["c1" := c];
  }

  // ---- what the rows and the cache are ----------------------------------------------------------------

  datatype Entry = Saved(collection: Collection) | Removed(id: string)

  function Applied(rows: Rows, ledger: seq<Entry>): Rows {
    if ledger == [] then rows
    else
      var before := Applied(rows, ledger[..|ledger| - 1]);
      match ledger[|ledger| - 1]
      case Saved(c) => before[c.id := c]
      case Removed(id) => before - {id}
  }

  predicate About(e: Entry, id: string) {
    match e
    case Saved(c) => c.id == id
    case Removed(i) => i == id
  }

  /** Of the entries about an id the last one decides what is stored under it, and without any it
      is what was stored before. */
  lemma {:induction false} LastEntryDecides(rows: Rows, ledger: seq<Entry>, id: string)
    ensures var after := Applied(rows, ledger);
      && ((forall i :: 0 <= i < |ledger| ==> !About(ledger[i], id)) ==>
            (id in after <==> id in rows) && (id in rows ==> after[id] == rows[id]))
      && forall i :: 0 <= i < |ledger| && About(ledger[i], id)
                     && (forall j :: i < j < |ledger| ==> !About(ledger[j], id)) ==>
           (id in after <==> ledger[i].Saved?) && (ledger[i].Saved? ==> after[id] == ledger[i].collection)
  {
    if ledger != [] {
      var n := |ledger| - 1;
      LastEntryDecides(rows, ledger[..n], id);
      assert forall i :: 0 <= i < n ==> ledger[..n][i] == ledger[i];
    }
  }

  function OwnEntry(a: Action): Entry
    requires !a.Transaction?
  {
    if a.Save? then Saved(a.collection) else Removed(a.id)
  }

  /** The writes of an action that last, in order: those of failed operations stay in an open
      transaction, those of a transaction that rolls back do not. */
  function Ledger(a: Action, inTx: bool): seq<Entry>
    decreases a, 1
  {
    match a
    case Transaction(body, fails) => if fails && !inTx then [] else LedgerAll(body, true)
    case _ =>
      match a.outcome
      case FailBefore => []
      case FailAfter => if inTx then [OwnEntry(a)] + LedgerAll(a.inside, true) else []
      case Done => [OwnEntry(a)] + LedgerAll(a.inside, true) + LedgerAll(a.after, inTx)
  }

  function LedgerAll(actions: seq<Action>, inTx: bool): seq<Entry>
    decreases actions, 0
  {
    if actions == [] then [] else Ledger(actions[0], inTx) + LedgerAll(actions[1..], inTx)
  }

  lemma {:induction false} AppliedJoin(rows: Rows, a: seq<Entry>, b: seq<Entry>)
    ensures Applied(rows, a + b) == Applied(Applied(rows, a), b)
  {
    if b == [] {
      assert a + b == a;
    } else {
      var n := |b| - 1;
      AppliedJoin(rows, a, b[..n]);
      assert (a + b)[..|a + b| - 1] == a + b[..n];
    }
  }

  lemma WriteApplies(s: State, a: Action)
    requires !a.Transaction?
    ensures Written(s, a).rows == Applied(s.rows, [OwnEntry(a)])
    ensures Written(s, a).inTx == s.inTx && Written(s, a).base == s.base
  {
    assert forall e: Entry :: [e][..0] == [] && Applied(s.rows, []) == s.rows;
  }

  lemma {:induction false} InsideRows(s: State, a: Action)
    requires !a.Transaction?
    ensures
      var t := Inside(s, a);
      var ledger := if a.outcome.FailAfter? && !s.inTx then [] else [OwnEntry(a)] + LedgerAll(a.inside, true);
      t.inTx == s.inTx && t.rows == Applied(s.rows, ledger)
    decreases a, 1
  {
    hide Applied, Written;
    var b := if s.inTx then s else Begin(s);
    WriteApplies(b, a);
    StaysOpenAll(Written(b, a), a.inside);
    RowsFollowTheLedger(Written(b, a), a.inside);
    AppliedJoin(s.rows, [OwnEntry(a)], LedgerAll(a.inside, true));
    AppliedNothing(s.rows);
  }

  lemma AppliedNothing(rows: Rows)
    ensures Applied(rows, []) == rows
  {
  }

  lemma {:induction false} RowsFollowTheLedgerBy(s: State, a: Action)
    ensures var t := Exec(s, a);
      t.rows == Applied(s.rows, Ledger(a, s.inTx)) && t.inTx == s.inTx
    decreases a, 2
  {
    hide Applied, LedgerAll, Inside, ExecAll;
    AppliedNothing(s.rows);
    if a.Transaction? {
      RowsFollowTheLedger(if s.inTx then s else Begin(s), a.body);
      if !s.inTx { StaysOpenAll(Begin(s), a.body); }
    } else if !a.outcome.FailBefore? {
      InsideRows(s, a);
      if a.outcome.Done? {
            RowsFollowTheLedger(Inside(s, a), a.after);
        AppliedJoin(s.rows, [OwnEntry(a)] + LedgerAll(a.inside, true), LedgerAll(a.after, s.inTx));
      }
    }
  }

  /** Over any run, with any nesting, the collections are what the ledger makes of them: those of
      a committed transaction exactly what it wrote, those of a rolled back one what they were. */
  lemma {:induction false} RowsFollowTheLedger(s: State, actions: seq<Action>)
    ensures var t := ExecAll(s, actions);
      t.rows == Applied(s.rows, LedgerAll(actions, s.inTx)) && t.inTx == s.inTx
    decreases actions, 0
  {
    if actions != [] {
      hide Ledger, Exec;
      RowsFollowTheLedgerBy(s, actions[0]);
      RowsFollowTheLedger(Exec(s, actions[0]), actions[1..]);
      AppliedJoin(s.rows, Ledger(actions[0], s.inTx), LedgerAll(actions[1..], s.inTx));
    }
  }

  /** So after a run without a stale rollback rows and cache both hold exactly what lasts of it. */
  lemma CacheFollowsTheLedger(s: State, run: seq<Action>)
    requires !s.inTx && s.base == map[] && s.waiting == 0 && Coherent(s) && WellBehaved(run)
    ensures var t := ExecAll(s, run); t.rows == t.cache == Applied(s.rows, LedgerAll(run, false))
  {
    CoherentRuns(s, run);
    RowsFollowTheLedger(s, run);
  }

  /** One save or delete with nothing inside or after it, outside a transaction. */
  lemma LoneOperation(s: State, a: Action)
    requires !s.inTx && s.base == map[] && s.waiting == 0 && !a.Transaction? && a.inside == a.after == []
    ensures
      var t := Exec(s, a);
      && t.rows == t.cache && t == s.(rows := t.rows, cache := t.cache)
      && t.rows == (if !a.outcome.Done? then s.rows
                    else if a.Save? then s.rows[a.collection.id := a.collection] else s.rows - {a.id})
  {
    var w := Written(Begin(s), a);
    assert ExecAll(w, a.inside) == w;
    assert ExecAll(End(w, a.outcome.FailAfter?), a.after) == End(w, a.outcome.FailAfter?);
  }

  // ---- the lookups ------------------------------------------------------------------------------------

  /** strings.EqualFold of a character of a collection name, always an ASCII one, with any other:
      besides the ASCII cases, 'k' folds with the Kelvin sign and 's' with the long s. */
  predicate EqualFoldChar(n: char, c: char) {
    || AsciiLower(n) == AsciiLower(c)
    || (AsciiLower(n) == 'k' && c == KELVIN)
    || (AsciiLower(n) == 's' && c == LONG_S)
  }

  /** SQLite's LOWER of a name character against Go's ToLower of any other. The capital I with a
      dot and the Kelvin sign are the non-ASCII characters that Go lowers to ASCII ones; what the
      rest lower to is not ASCII. */
  predicate LowerEqualsChar(n: char, c: char) {
    AsciiLower(n) == (if c == DOTTED_I then 'i' else if c == KELVIN then 'k' else AsciiLower(c))
  }

  const KELVIN: char := '\U{212A}'
  const LONG_S: char := '\U{017F}'
  const DOTTED_I: char := '\U{0130}'

  function AsciiLower(c: char): char {
    if 'A' <= c <= 'Z' then c - 'A' + 'a' else c
  }

  predicate EqualFold(name: string, x: string) {
    |name| == |x| && forall i :: 0 <= i < |x| ==> EqualFoldChar(name[i], x[i])
  }

  predicate LowerEquals(name: string, x: string) {
    |name| == |x| && forall i :: 0 <= i < |x| ==> LowerEqualsChar(name[i], x[i])
  }

  /** The two comparisons of an ASCII name differ exactly where one of them holds and the text
      has a long s, or the other holds and it has a dotted I. */
  lemma ComparisonsDiffer(name: Name, x: string)
    ensures EqualFold(name, x) && !LowerEquals(name, x) <==> EqualFold(name, x) && LONG_S in x
    ensures LowerEquals(name, x) && !EqualFold(name, x) <==> LowerEquals(name, x) && DOTTED_I in x
  {
    if |name| == |x| {
      forall i | 0 <= i < |x|
        ensures EqualFoldChar(name[i], x[i]) ==> (x[i] == LONG_S <==> !LowerEqualsChar(name[i], x[i]))
        ensures LowerEqualsChar(name[i], x[i]) ==> (x[i] == DOTTED_I <==> !EqualFoldChar(name[i], x[i]))
      {
      }
    }
  }

  /** On ASCII texts both disregard case and nothing else. */
  lemma AsciiTextsFold(name: Name, x: Name)
    ensures EqualFold(name, x) <==> Fold(name) == Fold(x)
    ensures LowerEquals(name, x) <==> Fold(name) == Fold(x)
  {
    assert |name| == |x| && (forall i :: 0 <= i < |x| ==> Fold(name)[i] == Fold(x)[i]) ==> Fold(name) == Fold(x);
    forall i | 0 <= i < |name| && i < |x|
      ensures EqualFoldChar(name[i], x[i]) <==> Fold(name)[i] == Fold(x)[i]
      ensures LowerEqualsChar(name[i], x[i]) <==> Fold(name)[i] == Fold(x)[i]
    {
    }
  }

  predicate InCache(c: Collection, x: string) {
    EqualFold(c.name, x) || c.id == x
  }

  predicate InQuery(c: Collection, x: string) {
    c.id == x || LowerEquals(c.name, x)
  }

  /** What FindAllCollections may return for the rows: each of them once, in some order. */
  ghost predicate Lists(list: seq<Collection>, rows: Rows) {
    && (forall i :: 0 <= i < |list| ==> list[i].id in rows && rows[list[i].id] == list[i])
    && (forall id :: id in rows ==> rows[id] in list)
    && (forall i, j :: 0 <= i < j < |list| ==> list[i].id != list[j].id)
  }

  ghost predicate Keyed(rows: Rows) {
    forall id :: id in rows ==> rows[id].id == id
  }

  /** What the query with a limit of one may return. */
  ghost predicate QueryAnswer(rows: Rows, x: string, answer: Option<Collection>) {
    match answer
    case Some(c) => c.id in rows && rows[c.id] == c && InQuery(c, x)
    case None => forall id :: id in rows ==> !InQuery(rows[id], x)
  }

  ghost predicate CacheAnswer(list: seq<Collection>, x: string, answer: Option<Collection>) {
    match answer
    case Some(c) => c in list && InCache(c, x)
    case None => forall i :: 0 <= i < |list| ==> !InCache(list[i], x)
  }

  /** With a right cache and a text without those two characters, the cached lookup finds a
      collection exactly when the query does, and the same one when only one matches. */
  lemma LookupsAgree(rows: Rows, list: seq<Collection>, x: string,
                     fromQuery: Option<Collection>, fromCache: Option<Collection>)
    requires Keyed(rows) && Lists(list, rows) && LONG_S !in x && DOTTED_I !in x
    requires QueryAnswer(rows, x, fromQuery) && CacheAnswer(list, x, fromCache)
    ensures fromQuery.Some? <==> fromCache.Some?
    ensures fromQuery.Some? && (forall id :: id in rows && InQuery(rows[id], x) ==> rows[id] == fromQuery.value)
            ==> fromCache == fromQuery
  {
    forall id | id in rows ensures InQuery(rows[id], x) <==> InCache(rows[id], x) {
      ComparisonsDiffer(rows[id].name, x);
    }
    if fromQuery.Some? {
      var c := fromQuery.value;
      var i :| 0 <= i < |list| && list[i] == rows[c.id];
      assert InCache(list[i], x);
    }
    if fromCache.Some? {
      var c := fromCache.value;
      assert c.id in rows && rows[c.id] == c;
    }
  }

  /** And without that condition they do not: each finds what the other misses. */
  lemma LookupsDisagree()
    ensures EqualFold("users", "u" + [LONG_S] + "ers") && !LowerEquals("users", "u" + [LONG_S] + "ers")
    ensures LowerEquals("items", [DOTTED_I] + "tems") && !EqualFold("items", [DOTTED_I] + "tems")
  {
    assert ("u" + [LONG_S] + "ers")[1] == LONG_S;
    assert !LowerEqualsChar("users"[1], LONG_S);
    assert ([DOTTED_I] + "tems")[0] == DOTTED_I;
    assert !EqualFoldChar("items"[0], DOTTED_I);
  }

  // ---- the code ---------------------------------------------------------------------------------------

  class App {
    var rows: Rows
    var inTx: bool
    var base: Rows
    var cachedCollections: seq<Collection>
    var waiting: nat
    ghost var cache: Rows

    constructor (rows: Rows)
      requires Keyed(rows)
      ensures Valid() && Snapshot() == State(rows, false, map[], rows, 0)
    {
      this.rows, inTx, base, waiting := rows, false, map[], 0;
      cachedCollections, cache := [], map[];
      new;
      ReloadCachedCollections();
    }

    ghost predicate Valid()
      reads this
    {
      Keyed(rows) && Keyed(base) && Lists(cachedCollections, cache)
    }

    ghost function Snapshot(): State
      reads this
    {
      State(rows, inTx, base, cache, waiting)
    }

    method FindAllCollections() returns (list: seq<Collection>)
      requires Valid()
      ensures Lists(list, rows)
    {
      list := [];
      var rest := rows.Keys;
      while rest != {}
        invariant rest <= rows.Keys
        invariant forall i :: 0 <= i < |list| ==>
                    list[i].id in rows && rows[list[i].id] == list[i] && list[i].id !in rest
        invariant forall id :: id in rows && id !in rest ==> rows[id] in list
        invariant forall i, j :: 0 <= i < j < |list| ==> list[i].id != list[j].id
        decreases |rest|
      {
        var id :| id in rest;
        rest := rest - {id};
        list := list + [rows[id]];
      }
    }

    method ReloadCachedCollections()
      requires Keyed(rows) && Keyed(base) && Lists(cachedCollections, cache)
      modifies this
      ensures Valid() && Snapshot() == Reloaded(old(Snapshot()))
    {
      cachedCollections := FindAllCollections();
      cache := rows;
    }

    method FindCachedCollectionByNameOrId(x: string) returns (found: Option<Collection>)
      ensures CacheAnswer(cachedCollections, x, found)
    {
      for i := 0 to |cachedCollections|
        invariant forall k :: 0 <= k < i ==> !InCache(cachedCollections[k], x)
      {
        if EqualFold(cachedCollections[i].name, x) || cachedCollections[i].id == x {
          return Some(cachedCollections[i]);
        }
      }
      return None;
    }

    method BeginTransaction()
      requires Valid() && !inTx
      modifies this
      ensures Valid() && Snapshot() == Begin(old(Snapshot()))
      ensures inTx
    {
      inTx, base, waiting := true, rows, 0;
    }

    /** Commits or rolls back; then each waiting hook of a rolled back transaction reloads. */
    method EndTransaction(failed: bool)
      requires Valid() && inTx
      modifies this
      ensures Valid() && Snapshot() == End(old(Snapshot()), failed)
    {
      if failed {
        rows := base;
      }
      inTx, base := false, map[];
      ghost var s := Snapshot();
      for i := 0 to waiting
        invariant Valid() && Snapshot() == if i > 0 && failed then Reloaded(s) else s
      {
        if failed {
          ReloadCachedCollections();
        }
      }
      waiting := 0;
    }

    method RunInTransaction(body: seq<Action>, fails: bool)
      requires Valid()
      modifies this
      ensures Valid() && Snapshot() == Exec(old(Snapshot()), Transaction(body, fails))
      decreases body, 1
    {
      if inTx {
        RunAll(body);
      } else {
        ghost var s := Snapshot();
        BeginTransaction();
        RunAll(body);
        StaysOpenAll(Begin(s), body);
        EndTransaction(fails);
      }
    }

    method Write(a: Action)
      requires Valid() && !a.Transaction?
      modifies this
      ensures Valid() && Snapshot() == Written(old(Snapshot()), a)
      ensures inTx == old(inTx)
    {
      if a.Save? {
        rows := rows[a.collection.id := a.collection];
      } else {
        rows := rows - {a.id};
      }
    }

    /** Save and Delete of a collection, with the system hooks around them. */
    method Run(a: Action)
      requires Valid() && !a.Transaction?
      modifies this
      ensures Valid() && Snapshot() == Exec(old(Snapshot()), a)
      decreases a, 2
    {
      hide Keyed, Lists, Begin, Written, ExecAll, Coherent;
      if a.outcome.FailBefore? {
        ReloadCachedCollections();
        return;
      }
      var own := !inTx;
      if own {
        BeginTransaction();
      }
      Write(a);
      ghost var w := Snapshot();
      RunAll(a.inside);
      StaysOpenAll(w, a.inside);
      if own {
        EndTransaction(a.outcome.FailAfter?);
      }
      assert Snapshot() == Inside(old(Snapshot()), a);
      if a.outcome.FailAfter? {
        ReloadCachedCollections(); // the deferred call
        ReloadCachedCollections(); // the error hook
      } else {
        RunAll(a.after);
        ReloadCachedCollections();
        if inTx {
          waiting := waiting + 1;
        }
      }
    }

    method RunAll(actions: seq<Action>)
      requires Valid()
      modifies this
      ensures Valid() && Snapshot() == ExecAll(old(Snapshot()), actions)
      decreases actions, 0
    {
      if actions != [] {
        if actions[0].Transaction? {
          RunInTransaction(actions[0].body, actions[0].fails);
        } else {
          Run(actions[0]);
        }
        RunAll(actions[1..]);
      }
    }
  }
}
