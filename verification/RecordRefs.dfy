/** Rows that point at a record of any collection through a collection id and a record id
    (core/auth_origin_model.go, core/db.go, core/collection_validate.go): how they are validated
    and how deletes cascade to them. */
module RecordRefs {
  import opened Names
  import opened Wrappers

  datatype Kind = Base | Auth | View

  datatype Collection = Collection(id: string, name: string, kind: Kind)

  /** A proxy row with its collectionRef and recordRef. */
  datatype Row = Row(id: string, collectionRef: string, recordRef: string)

  /** `collections` in the order of the cached list, `records` the ids in each one's table. */
  datatype State = State(collections: seq<Collection>, records: map<string, set<string>>, rows: seq<Row>)

  /** `refused`: a hook stops the delete before anything happens. `stuck`: the rows whose own
      delete a hook refuses. A new collection takes its place `at` in the list. */
  datatype Step =
    | CreateCollection(collection: Collection, at: nat)
    | UpdateCollection(collection: Collection)
    | DeleteCollection(id: string, refused: bool, stuck: set<string>)
    | CreateRecord(collectionId: string, id: string)
    | DeleteRecord(collectionId: string, id: string, refused: bool, stuck: set<string>)
    | SaveRow(row: Row)
    | DeleteRow(id: string)
    | Transaction(body: seq<Step>, fails: bool)

  // ---- lookups ----------------------------------------------------------------------------------------

  /** The position of the first collection with this id, or the length of the list. */
  function ById(list: seq<Collection>, id: string): (i: nat)
    ensures i <= |list|
    ensures i < |list| ==> list[i].id == id
    ensures forall k :: 0 <= k < i ==> list[k].id != id
  {
    if list == [] || list[0].id == id then 0 else 1 + ById(list[1..], id)
  }

  predicate Matches(c: Collection, nameOrId: string) {
    Fold(c.name) == Fold(nameOrId) || c.id == nameOrId
  }

  /** The cached lookup: the first collection whose name, in any case, or id is the given text. */
  function ByNameOrId(list: seq<Collection>, nameOrId: string): (i: nat)
    ensures i <= |list|
    ensures i < |list| ==> Matches(list[i], nameOrId)
    ensures forall k :: 0 <= k < i ==> !Matches(list[k], nameOrId)
  {
    if list == [] || Matches(list[0], nameOrId) then 0 else 1 + ByNameOrId(list[1..], nameOrId)
  }

  function RecordsOf(s: State, collectionId: string): set<string> {
    if collectionId in s.records then s.records[collectionId] else {}
  }

  // ---- the specification ------------------------------------------------------------------------------

  predicate IsAuth(list: seq<Collection>, id: string) {
    var i := ById(list, id);
    i < |list| && list[i].kind.Auth?
  }

  predicate ValidCollectionRef(s: State, id: string) {
    id != "" && IsAuth(s.collections, id)
  }

  predicate ValidRecordRef(s: State, collectionRef: string, id: string) {
    var i := ByNameOrId(s.collections, collectionRef);
    id != "" && i < |s.collections| && id in RecordsOf(s, s.collections[i].id)
  }

  predicate NameIsFree(s: State, name: string, exceptId: string) {
    && (forall i :: 0 <= i < |s.collections| && s.collections[i].id != exceptId ==>
                      Fold(s.collections[i].name) != Fold(name))
    && (forall i :: 0 <= i < |s.collections| ==> s.collections[i].id != name)
  }

  predicate CanCreate(s: State, c: Collection) {
    c.id != "" && ById(s.collections, c.id) == |s.collections| && NameIsFree(s, c.name, "")
  }

  predicate CanUpdate(s: State, c: Collection) {
    var i := ById(s.collections, c.id);
    i < |s.collections| && s.collections[i].kind == c.kind && NameIsFree(s, c.name, c.id)
  }

  /** With no record id, any record of the collection. */
  predicate Refers(row: Row, collectionId: string, recordId: Option<string>) {
    row.collectionRef == collectionId && (recordId.None? || row.recordRef == recordId.value)
  }

  /** Deletes the rows that refer to the target one after the other, up to the first whose own
      delete fails: all of them or, if one stays, at least that one. */
  function Swept(rows: seq<Row>, collectionId: string, recordId: Option<string>,
                 stuck: set<string>): (r: (seq<Row>, bool))
    ensures r.1 <==> forall row :: row in rows && Refers(row, collectionId, recordId) ==> row.id !in stuck
    ensures r.1 <==> forall row :: row in r.0 ==> !Refers(row, collectionId, recordId)
    ensures forall row :: row in r.0 ==> row in rows
    ensures forall row :: row in rows && !Refers(row, collectionId, recordId) ==> row in r.0
  {
    if rows == [] then ([], true)
    else if !Refers(rows[0], collectionId, recordId) then
      var (rest, ok) := Swept(rows[1..], collectionId, recordId, stuck);
      assert rows == [rows[0]] + rows[1..];
      ([rows[0]] + rest, ok)
    else if rows[0].id in stuck then (rows, false)
    else
      assert rows == [rows[0]] + rows[1..];
      Swept(rows[1..], collectionId, recordId, stuck)
  }

  function Inserted(list: seq<Collection>, c: Collection, at: nat): seq<Collection> {
    if at <= |list| then list[..at] + [c] + list[at..] else list + [c]
  }

  function Without(list: seq<Collection>, id: string): seq<Collection> {
    var i := ById(list, id);
    if i < |list| then list[..i] + list[i + 1..] else list
  }

  function WithoutRow(rows: seq<Row>, id: string): (r: seq<Row>)
    ensures forall row :: row in r <==> row in rows && row.id != id
  {
    if rows == [] then []
    else if rows[0].id == id then WithoutRow(rows[1..], id)
    else [rows[0]] + WithoutRow(rows[1..], id)
  }

  /** The delete itself, and then the cascade for collections of the allowed type. */
  function CollectionGone(s: State, id: string): State {
    s.(collections := Without(s.collections, id), records := s.records - {id})
  }

  function RecordGone(s: State, collectionId: string, id: string): State {
    if collectionId in s.records
    then s.(records := s.records[collectionId := s.records[collectionId] - {id}])
    else s
  }

  /** What a delete does before its transaction ends, and whether it went well. */
  function Deleted(s: State, step: Step): (State, bool)
    requires step.DeleteCollection? || step.DeleteRecord?
  {
    match step
    case DeleteCollection(id, _, stuck) =>
      var t := CollectionGone(s, id);
      if !IsAuth(s.collections, id) then (t, true)
      else
        var (rows, ok) := Swept(s.rows, id, None, stuck);
        (t.(rows := rows), ok)
    case DeleteRecord(collectionId, id, _, stuck) =>
      var t := RecordGone(s, collectionId, id);
      if !IsAuth(s.collections, collectionId) then (t, true)
      else
        var (rows, ok) := Swept(s.rows, collectionId, Some(id), stuck);
        (t.(rows := rows), ok)
  }

  /** The state after a step and whether it returned no error; outside a transaction a failed
      delete is rolled back. */
  function Exec(s: State, inTx: bool, step: Step): (State, bool)
    decreases step, 1
  {
    match step
    case CreateCollection(c, at) =>
      if CanCreate(s, c)
      then (s.(collections := Inserted(s.collections, c, at), records := s.records[c.id := {}]), true)
      else (s, false)
    case UpdateCollection(c) =>
      if CanUpdate(s, c)
      then (s.(collections := s.collections[ById(s.collections, c.id) := c]), true)
      else (s, false)
    case CreateRecord(collectionId, id) =>
      if id != "" && collectionId in s.records && id !in s.records[collectionId]
      then (s.(records := s.records[collectionId := s.records[collectionId] + {id}]), true)
      else (s, false)
    case SaveRow(row) =>
      if ValidCollectionRef(s, row.collectionRef) && ValidRecordRef(s, row.collectionRef, row.recordRef)
      then (s.(rows := WithoutRow(s.rows, row.id) + [row]), true)
      else (s, false)
    case DeleteRow(id) => (s.(rows := WithoutRow(s.rows, id)), true)
    case Transaction(body, fails) =>
      if inTx then (ExecAll(s, true, body), !fails)
      else (if fails then s else ExecAll(s, true, body), !fails)
    case _ =>
      if step.refused then (s, false)
      else
        var (t, ok) := Deleted(s, step);
        (if ok || inTx then t else s, ok)
  }

  function ExecAll(s: State, inTx: bool, steps: seq<Step>): State
    decreases steps, 0
  {
    if steps == [] then s else ExecAll(Exec(s, inTx, steps[0]).0, inTx, steps[1..])
  }

  // ---- referential integrity --------------------------------------------------------------------------

  predicate RefIsGood(s: State, row: Row) {
    IsAuth(s.collections, row.collectionRef) && row.recordRef in RecordsOf(s, row.collectionRef)
  }

  /** Every row points at an existing record of an auth collection; ids are unique. */
  ghost predicate Consistent(s: State) {
    && (forall row :: row in s.rows ==> RefIsGood(s, row))
    && UniqueIds(s.collections)
  }

  ghost predicate UniqueIds(list: seq<Collection>) {
    forall i, j :: 0 <= i < j < |list| ==> list[i].id != list[j].id
  }

  predicate Blocks(row: Row, collectionId: string, recordId: Option<string>, stuck: set<string>) {
    Refers(row, collectionId, recordId) && row.id in stuck
  }

  /** A hook refuses the delete of some row that refers to what is deleted. */
  predicate Blocked(s: State, step: Step)
    requires step.DeleteCollection? || step.DeleteRecord?
  {
    match step
    case DeleteCollection(id, _, stuck) =>
      IsAuth(s.collections, id) && exists row :: row in s.rows && Blocks(row, id, None, stuck)
    case DeleteRecord(collectionId, id, _, stuck) =>
      IsAuth(s.collections, collectionId) && exists row :: row in s.rows && Blocks(row, collectionId, Some(id), stuck)
  }

  /** A save accepted on the strength of a record of another collection, or a delete in an open
      transaction whose cascade is blocked. */
  predicate Breaks(s: State, inTx: bool, step: Step) {
    match step
    case SaveRow(row) => Exec(s, inTx, step).1 && row.recordRef !in RecordsOf(s, row.collectionRef)
    case DeleteCollection(_, refused, _) => inTx && !refused && Blocked(s, step)
    case DeleteRecord(_, _, refused, _) => inTx && !refused && Blocked(s, step)
    case _ => false
  }

  lemma UniqueById(list: seq<Collection>, i: nat)
    requires UniqueIds(list) && i < |list|
    ensures ById(list, list[i].id) == i
  {
  }

  /** `after` is `list` with one more element at position k. */
  ghost predicate Shifted(list: seq<Collection>, after: seq<Collection>, k: nat) {
    && |after| == |list| + 1 && k <= |list|
    && (forall i :: 0 <= i < k ==> after[i] == list[i])
    && (forall i :: k <= i < |list| ==> after[i + 1] == list[i])
  }

  lemma ShiftedUnique(list: seq<Collection>, after: seq<Collection>, k: nat)
    requires Shifted(list, after, k)
    ensures UniqueIds(after) <==> UniqueIds(list) && forall i :: 0 <= i < |list| ==> list[i].id != after[k].id
  {
    if UniqueIds(after) {
      forall i, j | 0 <= i < j < |list| ensures list[i].id != list[j].id {
        assert after[if i < k then i else i + 1].id != after[if j < k then j else j + 1].id;
      }
      forall i | 0 <= i < |list| ensures list[i].id != after[k].id {
        assert list[i] == after[if i < k then i else i + 1];
      }
    } else {
      var i, j :| 0 <= i < j < |after| && after[i].id == after[j].id;
      assert i < k ==> after[i] == list[i];
      assert j < k ==> after[j] == list[j];
      assert i > k ==> after[(i - 1) + 1] == list[i - 1];
      assert j > k ==> after[(j - 1) + 1] == list[j - 1];
    }
  }

  lemma ShiftedAuth(list: seq<Collection>, after: seq<Collection>, k: nat, id: string)
    requires Shifted(list, after, k) && UniqueIds(after) && id != after[k].id
    ensures IsAuth(after, id) <==> IsAuth(list, id)
  {
    hide ById;
    var i, j := ById(list, id), ById(after, id);
    if i < |list| {
      assert list[i] == after[if i < k then i else i + 1] by { ShiftedAt(list, after, k, i); }
      UniqueById(after, if i < k then i else i + 1);
    } else if j < |after| {
      assert j != k;
      ShiftedAt(list, after, k, if j < k then j else j - 1);
    }
  }

  lemma ShiftedAt(list: seq<Collection>, after: seq<Collection>, k: nat, i: nat)
    requires Shifted(list, after, k) && i < |list|
    ensures |after| == |list| + 1 && k <= |list|
    ensures list[i] == after[if i < k then i else i + 1]
  {
  }

  lemma InsertedList(list: seq<Collection>, c: Collection, at: nat, id: string)
    requires UniqueIds(list) && ById(list, c.id) == |list|
    ensures UniqueIds(Inserted(list, c, at))
    ensures IsAuth(list, id) ==> IsAuth(Inserted(list, c, at), id)
  {
    var after := Inserted(list, c, at);
    var k := if at <= |list| then at else |list|;
    assert Shifted(list, after, k) && after[k] == c;
    ShiftedUnique(list, after, k);
    if IsAuth(list, id) {
      assert id != c.id;
      ShiftedAuth(list, after, k, id);
    }
  }

  lemma WithoutList(list: seq<Collection>, id: string, other: string)
    requires UniqueIds(list)
    ensures UniqueIds(Without(list, id))
    ensures IsAuth(Without(list, id), other) <==> IsAuth(list, other) && other != id
  {
    var k, rest := ById(list, id), Without(list, id);
    if k < |list| {
      assert Shifted(rest, list, k);
      ShiftedUnique(rest, list, k);
      if other != id {
        ShiftedAuth(rest, list, k, other);
      } else {
        assert ById(rest, id) == |rest|;
      }
    }
  }

  lemma CreateKeeps(s: State, inTx: bool, c: Collection, at: nat)
    requires Consistent(s)
    ensures Consistent(Exec(s, inTx, CreateCollection(c, at)).0)
  {
    if CanCreate(s, c) {
      var t := Exec(s, inTx, CreateCollection(c, at)).0;
      InsertedList(s.collections, c, at, "");
      forall row | row in t.rows ensures RefIsGood(t, row) {
        assert RefIsGood(s, row);
        InsertedList(s.collections, c, at, row.collectionRef);
      }
    }
  }

  lemma UpdateKeeps(s: State, inTx: bool, c: Collection)
    requires Consistent(s)
    ensures Consistent(Exec(s, inTx, UpdateCollection(c)).0)
  {
    if CanUpdate(s, c) {
      var t := Exec(s, inTx, UpdateCollection(c)).0;
      forall row | row in t.rows ensures RefIsGood(t, row) {
        assert RefIsGood(s, row);
        UniqueById(t.collections, ById(s.collections, row.collectionRef));
      }
    }
  }

  /** A delete that starts from a consistent state succeeds, and ends in a consistent one, exactly
      when no hook refuses the delete of a row that refers to it: hooks that skip collections of
      other types skip nothing, as no row refers to them. */
  lemma DeleteKeeps(s: State, step: Step)
    requires Consistent(s) && (step.DeleteCollection? || step.DeleteRecord?)
    ensures Consistent(Deleted(s, step).0) <==> !Blocked(s, step)
    ensures Deleted(s, step).1 <==> !Blocked(s, step)
  {
    DeletedUnlessBlocked(s, step);
    if step.DeleteCollection? {
      CollectionDeleteKeeps(s, step);
    } else {
      RecordDeleteKeeps(s, step);
    }
  }

  lemma DeletedUnlessBlocked(s: State, step: Step)
    requires step.DeleteCollection? || step.DeleteRecord?
    ensures Deleted(s, step).1 <==> !Blocked(s, step)
  {
    if Blocked(s, step) {
      match step
      case DeleteCollection(id, _, stuck) =>
        var row :| row in s.rows && Blocks(row, id, None, stuck);
      case DeleteRecord(collectionId, id, _, stuck) =>
        var row :| row in s.rows && Blocks(row, collectionId, Some(id), stuck);
    } else {
      match step
      case DeleteCollection(id, _, stuck) =>
        assert IsAuth(s.collections, id) ==> forall row :: row in s.rows ==> !Blocks(row, id, None, stuck);
      case DeleteRecord(collectionId, id, _, stuck) =>
        assert IsAuth(s.collections, collectionId) ==>
            forall row :: row in s.rows ==> !Blocks(row, collectionId, Some(id), stuck);
    }
  }

  lemma CollectionDeleteKeeps(s: State, step: Step)
    requires Consistent(s) && step.DeleteCollection?
    ensures Consistent(Deleted(s, step).0) <==> Deleted(s, step).1
  {
    var (t, ok) := Deleted(s, step);
    WithoutList(s.collections, step.id, "");
    forall row | row in t.rows ensures RefIsGood(t, row) <==> !Refers(row, step.id, None) {
      assert RefIsGood(s, row);
      WithoutList(s.collections, step.id, row.collectionRef);
    }
  }

  lemma RecordDeleteKeeps(s: State, step: Step)
    requires Consistent(s) && step.DeleteRecord?
    ensures Consistent(Deleted(s, step).0) <==> Deleted(s, step).1
  {
    var (t, ok) := Deleted(s, step);
    forall row | row in t.rows ensures RefIsGood(t, row) <==> !Refers(row, step.collectionId, Some(step.id)) {
      assert RefIsGood(s, row);
    }
  }

  lemma SaveKeeps(s: State, inTx: bool, row: Row)
    requires Consistent(s)
    ensures Consistent(Exec(s, inTx, SaveRow(row)).0) <==> !Breaks(s, inTx, SaveRow(row))
  {
    var (t, ok) := Exec(s, inTx, SaveRow(row));
    if ok {
      assert row in t.rows;
      assert RefIsGood(t, row) <==> row.recordRef in RecordsOf(s, row.collectionRef);
      forall r | r in t.rows && r != row ensures RefIsGood(t, r) {
        assert r in s.rows && RefIsGood(s, r);
      }
    }
  }

  lemma RecordKeeps(s: State, inTx: bool, step: Step)
    requires Consistent(s) && (step.CreateRecord? || step.DeleteRow?)
    ensures Consistent(Exec(s, inTx, step).0)
  {
    var t := Exec(s, inTx, step).0;
    forall row | row in t.rows ensures RefIsGood(t, row) {
      assert RefIsGood(s, row);
    }
  }

  /** Every single step keeps all rows pointing at existing records of auth collections exactly
      unless it is one of the breaking ones. */
  lemma StepKeeps(s: State, inTx: bool, step: Step)
    requires Consistent(s) && !step.Transaction?
    ensures Consistent(Exec(s, inTx, step).0) <==> !Breaks(s, inTx, step)
  {
    hide Consistent;
    match step
    case CreateCollection(c, at) => CreateKeeps(s, inTx, c, at);
    case UpdateCollection(c) => UpdateKeeps(s, inTx, c);
    case SaveRow(row) => SaveKeeps(s, inTx, row);
    case CreateRecord(_, _) => RecordKeeps(s, inTx, step);
    case DeleteRow(_) => RecordKeeps(s, inTx, step);
    case DeleteCollection(_, _, _) => DeleteKeeps(s, step);
    case DeleteRecord(_, _, _, _) => DeleteKeeps(s, step);
  }

  /** Looking up the id of an auth collection by name or id finds that collection, or one whose
      records it has too. */
  ghost predicate FaithfulLookups(s: State) {
    forall i :: 0 <= i < |s.collections| && s.collections[i].id != "" && s.collections[i].kind.Auth? ==>
      FaithfulAt(s, i)
  }

  predicate FaithfulAt(s: State, i: nat)
    requires i < |s.collections|
  {
    var j := ByNameOrId(s.collections, s.collections[i].id);
    j < |s.collections| ==> RecordsOf(s, s.collections[j].id) <= RecordsOf(s, s.collections[i].id) + {""}
  }

  /** The validated saves that a state accepts are all good exactly when its lookups are faithful. */
  lemma SavesHoldExactlyWithFaithfulLookups(s: State, inTx: bool)
    requires UniqueIds(s.collections)
    ensures FaithfulLookups(s) <==> forall row :: !Breaks(s, inTx, SaveRow(row))
  {
    if FaithfulLookups(s) {
      forall row ensures !Breaks(s, inTx, SaveRow(row)) {
        FaithfulSaves(s, inTx, row);
      }
    } else {
      var i :| 0 <= i < |s.collections| && s.collections[i].id != "" && s.collections[i].kind.Auth?
          && !FaithfulAt(s, i);
      var c := s.collections[i].id;
      var j := ByNameOrId(s.collections, c);
      var r :| r in RecordsOf(s, s.collections[j].id) && r !in RecordsOf(s, c) + {""};
      UniqueById(s.collections, i);
      assert Breaks(s, inTx, SaveRow(Row("", c, r)));
    }
  }

  lemma FaithfulSaves(s: State, inTx: bool, row: Row)
    requires FaithfulLookups(s)
    ensures !Breaks(s, inTx, SaveRow(row))
  {
    if ValidCollectionRef(s, row.collectionRef) {
      assert FaithfulAt(s, ById(s.collections, row.collectionRef));
    }
  }

  /** No collection has a name that is, in any case, the id of another one. */
  ghost predicate NoNameIsAnId(list: seq<Collection>) {
    forall i, j :: 0 <= i < |list| && 0 <= j < |list| && i != j ==> Fold(list[i].name) != Fold(list[j].id)
  }

  /** Then every lookup of an id finds its own collection, so validated saves are good. */
  lemma ValidatedSavesHold(s: State)
    requires NoNameIsAnId(s.collections)
    ensures FaithfulLookups(s)
  {
    forall i | 0 <= i < |s.collections| ensures FaithfulAt(s, i) {
      assert Matches(s.collections[i], s.collections[i].id);
    }
  }

  /** What a run has to keep: a save meets faithful lookups, and no blocked delete in a
      transaction is followed by its commit. */
  ghost predicate Covered(s: State, inTx: bool, step: Step)
    decreases step, 1
  {
    match step
    case Transaction(body, fails) => (!inTx && fails) || CoveredAll(s, true, body)
    case SaveRow(_) => FaithfulLookups(s)
    case _ => !Breaks(s, inTx, step)
  }

  ghost predicate CoveredAll(s: State, inTx: bool, steps: seq<Step>)
    decreases steps, 0
  {
    steps == [] || (Covered(s, inTx, steps[0]) && CoveredAll(Exec(s, inTx, steps[0]).0, inTx, steps[1..]))
  }

  lemma {:induction false} CoveredStepKeeps(s: State, inTx: bool, step: Step)
    requires Consistent(s) && Covered(s, inTx, step)
    ensures Consistent(Exec(s, inTx, step).0)
    decreases step, 1
  {
    if !step.Transaction? {
      if step.SaveRow? {
        FaithfulSaves(s, inTx, step.row);
      }
      StepKeeps(s, inTx, step);
    } else if inTx || !step.fails {
      RunsKeepIntegrity(s, true, step.body);
    }
  }

  /** Over every run of validated saves, record and collection deletes and nested transactions,
      every row keeps pointing at an existing record of an auth collection. */
  lemma {:induction false} RunsKeepIntegrity(s: State, inTx: bool, steps: seq<Step>)
    requires Consistent(s) && CoveredAll(s, inTx, steps)
    ensures Consistent(ExecAll(s, inTx, steps))
    decreases steps, 0
  {
    if steps != [] {
      CoveredStepKeeps(s, inTx, steps[0]);
      RunsKeepIntegrity(Exec(s, inTx, steps[0]).0, inTx, steps[1..]);
    }
  }

  /** Outside transactions no delete can break anything: a cascade that fails is rolled back. */
  lemma TopLevelDeletesHold(s: State, step: Step)
    requires Consistent(s) && (step.DeleteCollection? || step.DeleteRecord?)
    ensures !Breaks(s, false, step)
    ensures Consistent(Exec(s, false, step).0)
    ensures !Exec(s, false, step).1 ==> Exec(s, false, step).0 == s
  {
    StepKeeps(s, false, step);
  }

  /** Why the type of a collection must not change: with any row referring to it, giving it
      another type breaks integrity, and its delete would leave the row behind. */
  lemma TypeChangeWouldBreak(s: State, i: nat, kind: Kind, row: Row)
    requires Consistent(s) && i < |s.collections| && row in s.rows
    requires row.collectionRef == s.collections[i].id && !kind.Auth?
    ensures
      var t := s.(collections := s.collections[i := s.collections[i].(kind := kind)]);
      && !Consistent(t)
      && row in Exec(t, false, DeleteCollection(row.collectionRef, false, {})).0.rows
  {
    var t := s.(collections := s.collections[i := s.collections[i].(kind := kind)]);
    UniqueById(s.collections, i);
    UniqueById(t.collections, i);
    assert !RefIsGood(t, row);
  }

  // ---- what each step does ----------------------------------------------------------------------------

  predicate HasRecord(s: State, collectionId: string, id: string) {
    collectionId in s.records && id in s.records[collectionId]
  }

  /** The name of a collection is no other one's, in any case, and no existing id. */
  ghost predicate NameClashes(s: State, c: Collection) {
    exists d :: d in s.collections && ((d.id != "" && d.id != c.id && Fold(d.name) == Fold(c.name)) || d.id == c.name)
  }

  lemma CollectionIsCreated(s: State, inTx: bool, c: Collection, at: nat)
    ensures
      var (t, ok) := Exec(s, inTx, CreateCollection(c, at));
      && (ok <==> c.id != "" && (forall d :: d in s.collections ==> d.id != c.id) && !NameClashes(s, c))
      && (!ok ==> t == s)
      && (ok ==>
            && t.rows == s.rows && |t.collections| == |s.collections| + 1
            && (forall d :: d in t.collections <==> d in s.collections || d == c)
            && (at <= |s.collections| ==> t.collections[at] == c)
            && (forall k, id :: HasRecord(t, k, id) <==> HasRecord(s, k, id) && k != c.id)
            && c.id in t.records)
  {
    var i := ById(s.collections, c.id);
    assert i < |s.collections| ==> s.collections[i] in s.collections;
    assert forall d :: d in s.collections ==> exists k :: 0 <= k < |s.collections| && s.collections[k] == d;
    if !NameIsFree(s, c.name, "") && i == |s.collections| {
      var k :| 0 <= k < |s.collections| && ((s.collections[k].id != "" && Fold(s.collections[k].name) == Fold(c.name))
                                            || s.collections[k].id == c.name);
      assert s.collections[k] in s.collections;
    }
  }

  lemma CollectionIsUpdated(s: State, inTx: bool, c: Collection)
    requires UniqueIds(s.collections)
    ensures
      var (t, ok) := Exec(s, inTx, UpdateCollection(c));
      && (ok <==>
            && (exists d :: d in s.collections && d.id == c.id && d.kind == c.kind)
            && (forall d :: d in s.collections ==> (d.id != c.id ==> Fold(d.name) != Fold(c.name)) && d.id != c.name))
      && (!ok ==> t == s)
      && t.rows == s.rows && t.records == s.records && |t.collections| == |s.collections|
      && (forall i :: 0 <= i < |s.collections| ==>
            t.collections[i] == if ok && s.collections[i].id == c.id then c else s.collections[i])
  {
    var i := ById(s.collections, c.id);
    if i < |s.collections| {
      assert s.collections[i] in s.collections;
    }
    assert forall k :: 0 <= k < |s.collections| ==> s.collections[k] in s.collections;
    assert forall d :: d in s.collections ==> exists k :: 0 <= k < |s.collections| && s.collections[k] == d;
  }

  /** A delete of a collection takes its table and, of an auth collection, every row that refers
      to it; one that is refused or rolled back takes nothing. */
  lemma CollectionIsDeleted(s: State, inTx: bool, id: string, refused: bool, stuck: set<string>)
    requires UniqueIds(s.collections)
    ensures
      var (t, ok) := Exec(s, inTx, DeleteCollection(id, refused, stuck));
      var auth := exists d :: d in s.collections && d.id == id && d.kind.Auth?;
      && (ok <==> !refused && (auth ==> forall row :: row in s.rows && row.collectionRef == id ==> row.id !in stuck))
      && (refused || (!ok && !inTx) ==> t == s)
      && (!refused && (ok || inTx) ==>
            && (forall d :: d in t.collections <==> d in s.collections && d.id != id)
            && (forall k :: k in t.records <==> k in s.records && k != id)
            && (forall k, r :: HasRecord(t, k, r) <==> HasRecord(s, k, r) && k != id))
      && (ok ==> forall row :: row in t.rows <==> row in s.rows && !(auth && row.collectionRef == id))
  {
    WithoutElements(s.collections, id);
    AuthElement(s.collections, id);
  }

  lemma AuthElement(list: seq<Collection>, id: string)
    requires UniqueIds(list)
    ensures IsAuth(list, id) <==> exists d :: d in list && d.id == id && d.kind.Auth?
  {
    var i := ById(list, id);
    if i < |list| {
      assert list[i] in list;
    }
  }

  lemma WithoutElements(list: seq<Collection>, id: string)
    requires UniqueIds(list)
    ensures forall d :: d in Without(list, id) <==> d in list && d.id != id
  {
    var i, rest := ById(list, id), Without(list, id);
    if i < |list| {
      assert list == list[..i] + [list[i]] + list[i + 1..];
      forall d | d in rest ensures d.id != id {
        var k :| 0 <= k < |rest| && rest[k] == d;
        assert rest[k] == list[if k < i then k else k + 1];
      }
    }
  }

  /** Records come and go one by one, with the rows that refer to them. */
  lemma RecordIsCreated(s: State, inTx: bool, collectionId: string, id: string)
    ensures
      var (t, ok) := Exec(s, inTx, CreateRecord(collectionId, id));
      && (ok <==> id != "" && collectionId in s.records && !HasRecord(s, collectionId, id))
      && t.rows == s.rows && t.collections == s.collections && t.records.Keys == s.records.Keys
      && (forall k, r :: HasRecord(t, k, r) <==> HasRecord(s, k, r) || (ok && k == collectionId && r == id))
  {
  }

  lemma RecordIsDeleted(s: State, inTx: bool, collectionId: string, id: string, refused: bool, stuck: set<string>)
    requires UniqueIds(s.collections)
    ensures
      var (t, ok) := Exec(s, inTx, DeleteRecord(collectionId, id, refused, stuck));
      var auth := exists d :: d in s.collections && d.id == collectionId && d.kind.Auth?;
      && (ok <==> !refused && (auth ==> forall row ::
                                 row in s.rows && row.collectionRef == collectionId && row.recordRef == id ==>
                                   row.id !in stuck))
      && (refused || (!ok && !inTx) ==> t == s)
      && t.collections == s.collections && t.records.Keys == s.records.Keys
      && (!refused && (ok || inTx) ==>
            forall k, r :: HasRecord(t, k, r) <==> HasRecord(s, k, r) && !(k == collectionId && r == id))
      && (ok ==> forall row :: row in t.rows <==>
                   row in s.rows && !(auth && row.collectionRef == collectionId && row.recordRef == id))
  {
    AuthElement(s.collections, collectionId);
  }

  /** The first collection whose name, in any case, or id is the text. */
  ghost predicate FirstFound(list: seq<Collection>, nameOrId: string, i: nat) {
    && i < |list| && (Fold(list[i].name) == Fold(nameOrId) || list[i].id == nameOrId)
    && forall k :: 0 <= k < i ==> Fold(list[k].name) != Fold(nameOrId) && list[k].id != nameOrId
  }

  lemma LookupIsFirst(s: State, nameOrId: string, id: string)
    ensures
      var j := ByNameOrId(s.collections, nameOrId);
      j < |s.collections| && HasRecord(s, s.collections[j].id, id) <==>
      exists i: nat :: FirstFound(s.collections, nameOrId, i) && HasRecord(s, s.collections[i].id, id)
  {
    hide ByNameOrId;
    var j := ByNameOrId(s.collections, nameOrId);
    assert j < |s.collections| ==> FirstFound(s.collections, nameOrId, j);
    assert forall i: nat :: FirstFound(s.collections, nameOrId, i) ==> i == j;
  }

  /** Rows are saved after both references were looked up, the second one by name or id. */
  lemma RowIsSaved(s: State, inTx: bool, row: Row)
    requires UniqueIds(s.collections)
    ensures
      var (t, ok) := Exec(s, inTx, SaveRow(row));
      var auth := exists d :: d in s.collections && d.id == row.collectionRef && d.kind.Auth?;
      && (ok <==>
            && row.collectionRef != "" && auth && row.recordRef != ""
            && exists i: nat :: FirstFound(s.collections, row.collectionRef, i)
                                && HasRecord(s, s.collections[i].id, row.recordRef))
      && t.collections == s.collections && t.records == s.records
      && (forall r :: r in t.rows <==> if ok then r == row || (r in s.rows && r.id != row.id) else r in s.rows)
  {
    hide ById, ByNameOrId, IsAuth, FirstFound;
    AuthElement(s.collections, row.collectionRef);
    LookupIsFirst(s, row.collectionRef, row.recordRef);
  }

  lemma RowIsDeleted(s: State, inTx: bool, id: string)
    ensures
      var (t, ok) := Exec(s, inTx, DeleteRow(id));
      && ok && t.collections == s.collections && t.records == s.records
      && forall row :: row in t.rows <==> row in s.rows && row.id != id
  {
  }

  /** A transaction does what its steps do one after the other, or nothing at all. */
  lemma TransactionsAreWhole(s: State, first: Step, rest: seq<Step>, fails: bool)
    ensures
      var (t, ok) := Exec(s, false, Transaction([first] + rest, fails));
      && (ok <==> !fails)
      && (fails ==> t == s)
      && (!fails ==> t == Exec(Exec(s, true, first).0, true, Transaction(rest, false)).0)
  {
    assert ([first] + rest)[1..] == rest;
  }

  // ---- counterexamples --------------------------------------------------------------------------------

  /** The validator lets a new collection take an id that is another one's name. A reference to
      it is then checked against the other one's records. */
  lemma NameAsIdBreaksIntegrity()
    ensures
      var s := State([Collection("aaa", "users", Auth)], map["aaa" := {"r1"}], []);
      var (t, created) := Exec(s, false, CreateCollection(Collection("users", "people", Auth), 1));
      var (u, saved) := Exec(t, false, SaveRow(Row("p", "users", "r1")));
      Consistent(s) && created && Consistent(t) && saved && !Consistent(u)
  {
    var a, b := Collection("aaa", "users", Auth), Collection("users", "people", Auth);
    var s := State([a], map["aaa" := {"r1"}], []);
    assert Fold("users")[0] == 'u' && Fold("people")[0] == 'p';
    assert "users"[0] == 'u' && "people"[0] == 'p' && "aaa"[0] == 'a';
    assert NameIsFree(s, "people", "");
    assert CanCreate(s, b);
    var (t, created) := Exec(s, false, CreateCollection(b, 1));
    CreateKeeps(s, false, b, 1);
    assert t.collections == [a, b];
    assert ById(t.collections, "users") == 1 by {
      assert t.collections[1..][0] == b;
    }
    assert Matches(t.collections[0], "users");
    assert ByNameOrId(t.collections, "users") == 0;
    var row := Row("p", "users", "r1");
    SaveKeeps(t, false, row);
    assert RecordsOf(t, "users") == {};
    assert RecordsOf(t, "aaa") == {"r1"};
  }

  /** A cascade that stops half-way in a transaction whose caller goes on and commits. */
  lemma IgnoredFailureBreaksIntegrity()
    ensures
      var s := State([Collection("aaa", "users", Auth)], map["aaa" := {"r1"}], [Row("p", "aaa", "r1")]);
      var run := Transaction([DeleteRecord("aaa", "r1", false, {"p"})], false);
      Consistent(s) && Exec(s, false, run).1 && !Consistent(Exec(s, false, run).0)
  {
    var row := Row("p", "aaa", "r1");
    var s := State([Collection("aaa", "users", Auth)], map["aaa" := {"r1"}], [row]);
    var step := DeleteRecord("aaa", "r1", false, {"p"});
    assert RefIsGood(s, row);
    assert Blocks(row, "aaa", Some("r1"), {"p"}) && row in s.rows;
    DeleteKeeps(s, step);
    assert Exec(s, true, step) == Deleted(s, step);
    assert ExecAll(s, true, [step]) == Deleted(s, step).0;
  }

  // ---- the rows a cascade finds -----------------------------------------------------------------------

  function Referring(rows: seq<Row>, collectionId: string, recordId: Option<string>): seq<Row> {
    if rows == [] then []
    else if Refers(rows[0], collectionId, recordId) then [rows[0]] + Referring(rows[1..], collectionId, recordId)
    else Referring(rows[1..], collectionId, recordId)
  }

  lemma {:induction false} ReferringStep(rows: seq<Row>, row: Row, collectionId: string, recordId: Option<string>)
    ensures Referring(rows + [row], collectionId, recordId) ==
            Referring(rows, collectionId, recordId) + (if Refers(row, collectionId, recordId) then [row] else [])
  {
    if rows != [] {
      assert (rows + [row])[1..] == rows[1..] + [row];
      ReferringStep(rows[1..], row, collectionId, recordId);
    }
  }

  ghost predicate UniqueRows(rows: seq<Row>) {
    forall i, j :: 0 <= i < j < |rows| ==> rows[i].id != rows[j].id
  }

  /** Sweeping is deleting the found rows one by one. */
  lemma {:induction false} SweepStep(rows: seq<Row>, collectionId: string, recordId: Option<string>, stuck: set<string>)
    requires UniqueRows(rows)
    ensures
      var found := Referring(rows, collectionId, recordId);
      if found == [] then Swept(rows, collectionId, recordId, stuck) == (rows, true)
      else if found[0].id in stuck then Swept(rows, collectionId, recordId, stuck) == (rows, false)
      else
        var rest := WithoutRow(rows, found[0].id);
        && Swept(rows, collectionId, recordId, stuck) == Swept(rest, collectionId, recordId, stuck)
        && Referring(rest, collectionId, recordId) == found[1..]
  {
    if rows != [] {
      var tail := rows[1..];
      assert rows == [rows[0]] + tail;
      if Refers(rows[0], collectionId, recordId) {
        WithoutAbsent(tail, rows[0].id);
      } else {
        SweepStep(tail, collectionId, recordId, stuck);
        var found := Referring(tail, collectionId, recordId);
        if found != [] && found[0].id !in stuck {
          FoundIsIn(tail, collectionId, recordId);
          var i :| 0 <= i < |tail| && tail[i] == found[0];
          assert rows[0].id != rows[i + 1].id;
          assert WithoutRow(rows, found[0].id) == [rows[0]] + WithoutRow(tail, found[0].id);
        }
      }
    }
  }

  lemma {:induction false} WithoutUnique(rows: seq<Row>, id: string)
    requires UniqueRows(rows)
    ensures UniqueRows(WithoutRow(rows, id))
  {
    if rows != [] {
      WithoutUnique(rows[1..], id);
      var rest := WithoutRow(rows[1..], id);
      forall k | 0 <= k < |rest| ensures rest[k].id != rows[0].id {
        assert rest[k] in rows[1..];
      }
    }
  }

  lemma {:induction false} WithoutAbsent(rows: seq<Row>, id: string)
    requires forall i :: 0 <= i < |rows| ==> rows[i].id != id
    ensures WithoutRow(rows, id) == rows
  {
    if rows != [] {
      WithoutAbsent(rows[1..], id);
    }
  }

  lemma {:induction false} FoundIsIn(rows: seq<Row>, collectionId: string, recordId: Option<string>)
    ensures forall row :: row in Referring(rows, collectionId, recordId) ==> row in rows
  {
    if rows != [] {
      FoundIsIn(rows[1..], collectionId, recordId);
    }
  }

  // ---- the code ---------------------------------------------------------------------------------------

  class Store {
    var collections: seq<Collection>
    var records: map<string, set<string>>
    var rows: seq<Row>

    constructor (collections: seq<Collection>, records: map<string, set<string>>, rows: seq<Row>)
      ensures Snapshot() == State(collections, records, rows)
    {
      this.collections, this.records, this.rows := collections, records, rows;
    }

    function Snapshot(): State
      reads this
    {
      State(collections, records, rows)
    }

    method FindRows(collectionId: string, recordId: Option<string>) returns (found: seq<Row>)
      ensures found == Referring(rows, collectionId, recordId)
    {
      found := [];
      for i := 0 to |rows|
        invariant found == Referring(rows[..i], collectionId, recordId)
      {
        ReferringStep(rows[..i], rows[i], collectionId, recordId);
        assert rows[..i + 1] == rows[..i] + [rows[i]];
        if Refers(rows[i], collectionId, recordId) {
          found := found + [rows[i]];
        }
      }
      assert rows[..|rows|] == rows;
    }
  
    /** Deletes every row found, stopping at the first whose own delete fails. */
    method DeleteRows(collectionId: string, recordId: Option<string>, stuck: set<string>) returns (ok: bool)
      requires UniqueRows(rows)
      modifies `rows
      ensures (rows, ok) == Swept(old(rows), collectionId, recordId, stuck)
    {
      var found := FindRows(collectionId, recordId);
      for i := 0 to |found|
        invariant UniqueRows(rows)
        invariant Referring(rows, collectionId, recordId) == found[i..]
        invariant Swept(rows, collectionId, recordId, stuck) == Swept(old(rows), collectionId, recordId, stuck)
      {
        SweepStep(rows, collectionId, recordId, stuck);
        assert found[i..][0] == found[i] && found[i..][1..] == found[i + 1..];
        if found[i].id in stuck {
          return false;
        }
        WithoutUnique(rows, found[i].id);
        rows := WithoutRow(rows, found[i].id);
      }
      SweepStep(rows, collectionId, recordId, stuck);
      return true;
    }

    method FindById(id: string) returns (i: nat)
      ensures i == ById(collections, id)
    {
      i := 0;
      while i < |collections| && collections[i].id != id
        invariant i <= |collections|
        invariant forall k :: 0 <= k < i ==> collections[k].id != id
      {
        i := i + 1;
      }
    }

    method FindByNameOrId(nameOrId: string) returns (i: nat)
      ensures i == ByNameOrId(collections, nameOrId)
    {
      i := 0;
      while i < |collections| && !Matches(collections[i], nameOrId)
        invariant i <= |collections|
        invariant forall k :: 0 <= k < i ==> !Matches(collections[k], nameOrId)
      {
        i := i + 1;
      }
    }

    /** The validation of a proxy row, then its insert or update. */
    method SaveRow(row: Row) returns (ok: bool)
      modifies `rows
      ensures (Snapshot(), ok) == Exec(old(Snapshot()), false, Step.SaveRow(row))
      ensures (Snapshot(), ok) == Exec(old(Snapshot()), true, Step.SaveRow(row))
    {
      var i := FindById(row.collectionRef);
      if row.collectionRef == "" || i == |collections| || !collections[i].kind.Auth? {
        return false;
      }
      var j := FindByNameOrId(row.collectionRef);
      if row.recordRef == "" || j == |collections| || row.recordRef !in RecordsOf(Snapshot(), collections[j].id) {
        return false;
      }
      rows := WithoutRow(rows, row.id) + [row];
      return true;
    }

    method DeleteRecord(inTx: bool, collectionId: string, id: string, refused: bool, stuck: set<string>)
        returns (ok: bool)
      requires UniqueRows(rows)
      modifies this
      ensures (Snapshot(), ok) == Exec(old(Snapshot()), inTx, Step.DeleteRecord(collectionId, id, refused, stuck))
    {
      if refused {
        return false;
      }
      var before := Snapshot();
      if collectionId in records {
        records := records[collectionId := records[collectionId] - {id}];
      }
      var i := FindById(collectionId);
      ok := true;
      if i < |collections| && collections[i].kind.Auth? {
        ok := DeleteRows(collectionId, Some(id), stuck);
      }
      if !ok && !inTx {
        collections, records, rows := before.collections, before.records, before.rows;
      }
    }

    method DeleteCollection(inTx: bool, id: string, refused: bool, stuck: set<string>) returns (ok: bool)
      requires UniqueRows(rows)
      modifies this
      ensures (Snapshot(), ok) == Exec(old(Snapshot()), inTx, Step.DeleteCollection(id, refused, stuck))
    {
      if refused {
        return false;
      }
      var before := Snapshot();
      var i := FindById(id);
      var isAuth := i < |collections| && collections[i].kind.Auth?;
      records := records - {id};
      if i < |collections| {
        collections := collections[..i] + collections[i + 1..];
      }
      ok := true;
      if isAuth {
        ok := DeleteRows(id, None, stuck);
      }
      if !ok && !inTx {
        collections, records, rows := before.collections, before.records, before.rows;
      }
    }
  }
}
