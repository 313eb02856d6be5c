/** SyncRecordTableSchema (core/collection_record_table_sync.go): the whole update, from the
    database that matches the old collection to the one that matches the new collection. */
module RecordTableSync {
  import opened Wrappers
  import opened Names
  import opened RecordCells
  import opened RecordTable
  import opened CollectionSchema
  import opened ColumnMigration

  // ---- what a database that matches a collection looks like -----------------------------------------

  function NameKeys(fs: seq<Field>): set<string> {
    set f | f in fs :: Fold(f.name)
  }

  function IndexNames(defs: seq<IndexDef>): set<string> {
    set d | d in defs :: Fold(d.name)
  }

  ghost predicate Matches(tbl: Table, f: Field) {
    && Fold(f.name) in tbl.columns
    && tbl.columns[Fold(f.name)].name == f.name
    && tbl.columns[Fold(f.name)].ctype == f.ColumnType()
    && |tbl.columns[Fold(f.name)].cells| == tbl.size
  }

  /** The columns are exactly the fields'. */
  ghost predicate TableOf(tbl: Table, fs: seq<Field>) {
    tbl.columns.Keys == NameKeys(fs) && forall f | f in fs :: Matches(tbl, f)
  }

  /** The indexes on the collection's table are exactly the declared ones. */
  ghost predicate IndexesOf(db: Database, c: Collection) {
    && (forall d | d in c.indexes ::
          Fold(d.name) in db.indexes && db.indexes[Fold(d.name)] == Index(Fold(c.name), d.ColumnKeys()))
    && (forall n | n in db.indexes && db.indexes[n].table == Fold(c.name) :: n in IndexNames(c.indexes))
  }

  ghost predicate InSync(db: Database, c: Collection) {
    && Fold(c.name) in db.tables
    && TableOf(db.tables[Fold(c.name)], c.fields)
    && IndexesOf(db, c)
    && db.IndexesSound()
    && ViewsApart(db)
  }

  // ---- the specification: what an update makes of the database ----------------------------------------

  function FieldNamed(fs: seq<Field>, k: string): (r: Option<Field>)
    ensures r.Some? ==> r.value in fs && Fold(r.value.name) == k
    ensures k in NameKeys(fs) ==> r.Some?
  {
    if fs == [] then None
    else if Fold(fs[0].name) == k then Some(fs[0])
    else assert fs == [fs[0]] + fs[1..]; FieldNamed(fs[1..], k)
  }

  /** The column of a new field: the old field's cells, converted if the multiplicity changed,
      or the default in every row when the field is new. */
  function FinalColumn(tbl: Table, old_: seq<Field>, f: Field): Column {
    var o := GetById(old_, f.id);
    if o.None? || Fold(o.value.name) !in tbl.columns then
      Column(f.name, f.ColumnType(), seq(tbl.size, _ => f.ColumnType().Default()))
    else if o.value.IsMultiple() == f.IsMultiple() then
      Column(f.name, f.ColumnType(), tbl.columns[Fold(o.value.name)].cells)
    else
      Column(f.name, f.ColumnType(),
             Mapped(tbl.columns[Fold(o.value.name)].cells, if f.IsMultiple() then ToMultiple else ToSingle))
  }

  function FinalTable(tbl: Table, old_: seq<Field>, new_: seq<Field>): Table {
    Table(map k | k in NameKeys(new_) :: FinalColumn(tbl, old_, FieldNamed(new_, k).value), tbl.size)
  }

  function IndexMap(t: string, defs: seq<IndexDef>): map<string, Index> {
    if defs == [] then map[]
    else var d := defs[|defs| - 1];
      IndexMap(t, defs[..|defs| - 1])[Fold(d.name) := Index(Fold(t), set c | c in d.columns :: Fold(c))]
  }

  predicate NeedTableRename(old_: Collection, new_: Collection) {
    Fold(old_.name) != Fold(new_.name)
  }

  predicate NeedIndexesUpdate(old_: Collection, new_: Collection) {
    NeedTableRename(old_, new_) || old_.fields != new_.fields || old_.indexes != new_.indexes
  }

  function WithoutIndexes(db: Database, c: Collection): Database {
    db.(indexes := db.indexes - IndexNames(c.indexes))
  }

  /** After the old indexes are dropped and the table is renamed. */
  function Opened(db: Database, old_: Collection, new_: Collection): Database
    requires Fold(old_.name) in db.tables
  {
    if NeedTableRename(old_, new_) then WithoutIndexes(db, old_).RenamedTable(old_.name, new_.name)
    else WithoutIndexes(db, old_)
  }

  function Synced(db: Database, old_: Collection, new_: Collection): Database
    requires Fold(old_.name) in db.tables
  {
    var d := Opened(db, old_, new_);
    d.(tables := d.tables[Fold(new_.name) := FinalTable(db.tables[Fold(old_.name)], old_.fields, new_.fields)],
       indexes := d.indexes + IndexMap(new_.name, new_.indexes))
  }

  /** What no validator check guarantees: the new table name is also no index name, and every
      index names existing columns, satisfied by the rows, under a name that is no table or view. */
  ghost predicate Fits(db: Database, old_: Collection, new_: Collection, admits: (Table, IndexDef) -> bool)
    requires Fold(old_.name) in db.tables
  {
    && (NeedTableRename(old_, new_) ==> !WithoutIndexes(db, old_).Taken(new_.name))
    && forall d | d in new_.indexes ::
         FitsTable(Opened(db, old_, new_), FinalTable(db.tables[Fold(old_.name)], old_.fields, new_.fields), d, admits)
  }

  ghost predicate FitsTable(db: Database, tbl: Table, d: IndexDef, admits: (Table, IndexDef) -> bool) {
    d.ColumnKeys() <= tbl.columns.Keys && admits(tbl, d) && Fold(d.name) !in db.tables && Fold(d.name) !in db.views
  }

  ghost predicate DistinctNames(defs: seq<IndexDef>) {
    forall i, j | 0 <= i < j < |defs| :: Fold(defs[i].name) != Fold(defs[j].name)
  }

  /** Well-formed indexes with distinct names and expressions, none of which names an index of a
      table other than the collection's old or new one. */
  ghost predicate ValidIndexes(db: Database, old_: string, new_: string, indexes: seq<IndexDef>) {
    && (forall d | d in indexes :: d.valid)
    && DistinctNames(indexes)
    && (forall i, j | 0 <= i < j < |indexes| :: indexes[i].shape != indexes[j].shape)
    && (forall d | d in indexes && Fold(d.name) in db.indexes ::
        db.indexes[Fold(d.name)].table in {Fold(old_), Fold(new_)})
  }

  ghost predicate OnSystemField(d: IndexDef, fields: seq<Field>) {
    exists column, f :: column in d.columns && f in fields && f.system && Fold(column) == Fold(f.name)
  }

  predicate HasCore(indexes: seq<IndexDef>, core: string) {
    exists i :: 0 <= i < |indexes| && indexes[i].core == core
  }

  /** Unique indexes on system fields are still there, up to condition, collation and order. */
  ghost predicate UniqueIndexesKept(original: Collection, indexes: seq<IndexDef>) {
    forall d | d in original.indexes && d.unique && OnSystemField(d, original.fields) :: HasCore(indexes, d.core)
  }

  const TOKEN_KEY := "tokenKey"
  const EMAIL := "email"

  ghost predicate HasSingleColumnUnique(indexes: seq<IndexDef>, column: string) {
    exists d :: d in indexes && d.unique && |d.columns| == 1 && Fold(d.columns[0]) == Fold(column)
  }

  /** Auth collections have their two unique indexes. */
  ghost predicate HasAuthIndexes(indexes: seq<IndexDef>) {
    HasSingleColumnUnique(indexes, TOKEN_KEY) && HasSingleColumnUnique(indexes, EMAIL)
  }

  method CheckIndexes(db: Database, original: Option<Collection>, updated: Collection) returns (ok: bool)
    ensures ok <==>
      && (updated.kind.View? ==> updated.indexes == [])
      && ValidIndexes(db, if original.Some? then original.value.name else "", updated.name, updated.indexes)
      && (original.Some? ==> UniqueIndexesKept(original.value, updated.indexes))
      && (updated.kind.Auth? ==> HasAuthIndexes(updated.indexes))
  {
    var originalName := if original.Some? then original.value.name else "";
    if updated.kind.View? && |updated.indexes| > 0 { return false; }
    ok := CheckNewIndexes(db, originalName, updated.name, updated.indexes);
    if ok && original.Some? {
      ok := CheckUniqueIndexes(original.value, updated.indexes);
    }
    if ok && updated.kind.Auth? {
      ok := CheckAuthIndexes(updated.indexes);
    }
  }

  method CheckAuthIndexes(indexes: seq<IndexDef>) returns (ok: bool)
    ensures ok <==> HasAuthIndexes(indexes)
  {
    var names := [TOKEN_KEY, EMAIL];
    for i := 0 to |names|
      invariant forall j :: 0 <= j < i ==> HasSingleColumnUnique(indexes, names[j])
    {
      var found := FindSingleColumnUniqueIndex(indexes, names[i]);
      if !found { return false; }
    }
    assert names[0] == TOKEN_KEY && names[1] == EMAIL;
    return true;
  }

  method FindSingleColumnUniqueIndex(indexes: seq<IndexDef>, column: string) returns (found: bool)
    ensures found <==> HasSingleColumnUnique(indexes, column)
  {
    for i := 0 to |indexes|
      invariant forall j :: 0 <= j < i ==>
                  !(indexes[j].unique && |indexes[j].columns| == 1 && Fold(indexes[j].columns[0]) == Fold(column))
    {
      var d := indexes[i];
      if d.unique && |d.columns| == 1 && Fold(d.columns[0]) == Fold(column) {
        assert d in indexes;
        return true;
      }
    }
    return false;
  }

  method CheckNewIndexes(db: Database, originalName: string, newName: string, indexes: seq<IndexDef>) returns (ok: bool)
    ensures ok <==> ValidIndexes(db, originalName, newName, indexes)
  {
    var names: seq<string>, shapes: seq<string> := [], [];
    for i := 0 to |indexes|
      invariant |names| == |shapes| == i
      invariant forall j | 0 <= j < i :: names[j] == Fold(indexes[j].name) && shapes[j] == indexes[j].shape
      invariant ValidIndexes(db, originalName, newName, indexes[..i])
    {
      var d := indexes[i];
      assert d in indexes;
      if !d.valid { return false; }
      if Fold(d.name) in names {
        var j :| 0 <= j < i && names[j] == Fold(d.name);
        return false;
      }
      names := names + [Fold(d.name)];
      if Fold(d.name) in db.indexes && db.indexes[Fold(d.name)].table !in {Fold(originalName), Fold(newName)} {
        return false;
      }
      if d.shape in shapes {
        var j :| 0 <= j < i && shapes[j] == d.shape;
        return false;
      }
      shapes := shapes + [d.shape];
      assert indexes[..i + 1] == indexes[..i] + [d];
    }
    assert indexes[..|indexes|] == indexes;
    return true;
  }

  method CheckUniqueIndexes(original: Collection, indexes: seq<IndexDef>) returns (ok: bool)
    ensures ok <==> UniqueIndexesKept(original, indexes)
  {
    for i := 0 to |original.indexes|
      invariant forall j | 0 <= j < i && original.indexes[j].unique
                && OnSystemField(original.indexes[j], original.fields) ::
        HasCore(indexes, original.indexes[j].core)
    {
      var d := original.indexes[i];
      if d.unique {
        var onSystemField := NamesASystemField(d, original.fields);
        if onSystemField {
          var kept := FindCore(indexes, d.core);
          if !kept {
            assert d in original.indexes;
            return false;
          }
        }
      }
    }
    return true;
  }

  method NamesASystemField(d: IndexDef, fields: seq<Field>) returns (found: bool)
    ensures found <==> OnSystemField(d, fields)
  {
    for i := 0 to |d.columns|
      invariant forall j, f | 0 <= j < i && f in fields && f.system :: Fold(d.columns[j]) != Fold(f.name)
    {
      for k := 0 to |fields|
        invariant forall l :: 0 <= l < k && fields[l].system ==> Fold(d.columns[i]) != Fold(fields[l].name)
      {
        if fields[k].system && Fold(d.columns[i]) == Fold(fields[k].name) {
          assert d.columns[i] in d.columns && fields[k] in fields;
          return true;
        }
      }
    }
    return false;
  }

  method FindCore(indexes: seq<IndexDef>, core: string) returns (found: bool)
    ensures found <==> HasCore(indexes, core)
  {
    for i := 0 to |indexes|
      invariant forall j :: 0 <= j < i ==> indexes[j].core != core
    {
      if indexes[i].core == core { return true; }
    }
    return false;
  }

  // ---- the index loops --------------------------------------------------------------------------------

  function ValidNames(defs: seq<IndexDef>): set<string> {
    set d | d in defs && d.valid :: Fold(d.name)
  }

  /** Drops every well-formed index of the collection, by name. */
  method DropCollectionIndexes(tx: SqlSession, c: Collection)
    modifies tx`db
    ensures tx.db == old(tx.db).(indexes := old(tx.db).indexes - ValidNames(c.indexes))
    ensures (forall d | d in c.indexes :: d.valid) ==> tx.db == WithoutIndexes(old(tx.db), c)
  {
    for i := 0 to |c.indexes|
      invariant tx.db == old(tx.db).(indexes := old(tx.db).indexes - ValidNames(c.indexes[..i]))
    {
      var d := c.indexes[i];
      assert c.indexes[..i + 1] == c.indexes[..i] + [d];
      assert ValidNames(c.indexes[..i + 1]) == ValidNames(c.indexes[..i]) + if d.valid then {Fold(d.name)} else {};
      if d.valid { tx.DropIndex(d.name); }
    }
    assert c.indexes[..|c.indexes|] == c.indexes;
    assert (forall d | d in c.indexes :: d.valid) ==> ValidNames(c.indexes) == IndexNames(c.indexes);
  }

  lemma {:induction false} IndexMapKeys(t: string, defs: seq<IndexDef>)
    ensures IndexMap(t, defs).Keys == IndexNames(defs)
  {
    if defs != [] {
      var init := defs[..|defs| - 1];
      IndexMapKeys(t, init);
      assert defs == init + [defs[|defs| - 1]];
      assert IndexNames(defs) == IndexNames(init) + {Fold(defs[|defs| - 1].name)};
    }
  }

  lemma {:induction false} IndexMapAt(t: string, defs: seq<IndexDef>, i: nat)
    requires i < |defs| && DistinctNames(defs)
    ensures Fold(defs[i].name) in IndexMap(t, defs)
    ensures IndexMap(t, defs)[Fold(defs[i].name)] == Index(Fold(t), defs[i].ColumnKeys())
  {
    if i < |defs| - 1 {
      IndexMapAt(t, defs[..|defs| - 1], i);
    }
  }

  /** No index of the collection exists yet, so creating them can only fail on the table itself. */
  ghost predicate Creatable(db: Database, c: Collection) {
    && Fold(c.name) in db.tables && DistinctNames(c.indexes)
    && (forall d | d in c.indexes :: d.valid && Fold(d.name) !in db.indexes)
  }

  /** Part-way: the first `i` indexes were tried, `failed` says whether one of them failed. */
  ghost predicate Tried(db0: Database, db: Database, c: Collection, admits: (Table, IndexDef) -> bool, i: nat,
                        failed: bool)
    requires Fold(c.name) in db0.tables && i <= |c.indexes|
  {
    && db == db0.(indexes := db.indexes)
    && (forall j | i <= j < |c.indexes| :: Fold(c.indexes[j].name) !in db.indexes)
    && (!failed <==> forall j | 0 <= j < i :: FitsTable(db0, db0.tables[Fold(c.name)], c.indexes[j], admits))
    && (!failed ==> db.indexes == db0.indexes + IndexMap(c.name, c.indexes[..i]))
  }

  lemma FitsIffCreatable(db0: Database, db: Database, t: string, d: IndexDef, admits: (Table, IndexDef) -> bool)
    requires Fold(t) in db0.tables && db == db0.(indexes := db.indexes) && Fold(d.name) !in db.indexes
    ensures db.CanCreateIndex(t, d, admits) <==> FitsTable(db0, db0.tables[Fold(t)], d, admits)
    ensures db.CreatedIndex(t, d) ==
            db0.(indexes := db.indexes[Fold(d.name) := Index(Fold(t), set c | c in d.columns :: Fold(c))])
  {
  }

  lemma IndexMapMore(t: string, defs: seq<IndexDef>, i: nat, indexes: map<string, Index>)
    requires i < |defs|
    ensures (indexes + IndexMap(t, defs[..i]))
              [Fold(defs[i].name) := Index(Fold(t), set c | c in defs[i].columns :: Fold(c))]
            == indexes + IndexMap(t, defs[..i + 1])
  {
    assert defs[..i + 1][..i] == defs[..i];
    var entry := Index(Fold(t), set c | c in defs[i].columns :: Fold(c));
    assert IndexMap(t, defs[..i + 1]) == IndexMap(t, defs[..i])[Fold(defs[i].name) := entry];
  }

  lemma TryMore(db0: Database, db: Database, c: Collection, admits: (Table, IndexDef) -> bool, i: nat, failed: bool)
    requires Creatable(db0, c) && i < |c.indexes| && Tried(db0, db, c, admits, i, failed)
    ensures var d := c.indexes[i];
            var ok := db.CanCreateIndex(c.name, d, admits);
            && d.valid
            && Tried(db0, if ok then db.CreatedIndex(c.name, d) else db, c, admits, i + 1, failed || !ok)
  {
    var d := c.indexes[i];
    assert d in c.indexes;
    FitsIffCreatable(db0, db, c.name, d, admits);
    IndexMapMore(c.name, c.indexes, i, db0.indexes);
    assert forall j | i < j < |c.indexes| :: Fold(d.name) != Fold(c.indexes[j].name);
    hide FitsTable, Fold, IndexMap, db.CreatedIndex, db.CanCreateIndex, DistinctNames;
  }

  /** Tries one index after the other, leaving out those that are refused. */
  ghost function CreatedAll(db: Database, t: string, defs: seq<IndexDef>,
                            admits: (Table, IndexDef) -> bool): (Database, bool) {
    if defs == [] then (db, true)
    else
      var (d, ok) := CreatedAll(db, t, defs[..|defs| - 1], admits);
      var last := defs[|defs| - 1];
      if last.valid && d.CanCreateIndex(t, last, admits) then (d.CreatedIndex(t, last), ok) else (d, false)
  }

  /** Creates every index of the collection; a failed one is recorded and the others are still tried. */
  method CreateCollectionIndexes(tx: SqlSession, c: Collection, admits: (Table, IndexDef) -> bool) returns (ok: bool)
    modifies tx`db
    ensures (tx.db, ok) == CreatedAll(old(tx.db), c.name, c.indexes, admits)
    ensures Creatable(old(tx.db), c) ==> Tried(old(tx.db), tx.db, c, admits, |c.indexes|, !ok)
  {
    hide Tried, FitsTable;
    ghost var db, good := tx.db, Creatable(tx.db, c);
    var errs: set<nat> := {};
    if good { NothingTried(db, c, admits); }
    for i := 0 to |c.indexes|
      invariant good ==> Tried(db, tx.db, c, admits, i, errs != {})
      invariant (tx.db, errs == {}) == CreatedAll(db, c.name, c.indexes[..i], admits)
    {
      var d := c.indexes[i];
      assert c.indexes[..i + 1][..i] == c.indexes[..i];
      if good { TryMore(db, tx.db, c, admits, i, errs != {}); }
      if !d.valid {
        errs := errs + {i};
      } else {
        var created := tx.CreateIndex(c.name, d, admits);
        if !created { errs := errs + {i}; }
      }
    }
    assert c.indexes[..|c.indexes|] == c.indexes;
    ok := errs == {};
  }

  lemma NothingTried(db: Database, c: Collection, admits: (Table, IndexDef) -> bool)
    requires Creatable(db, c)
    ensures Tried(db, db, c, admits, 0, false)
  {
    assert forall d | d in c.indexes :: Fold(d.name) !in db.indexes;
  }

  // ---- from the database to the stages of the migration and back ----------------------------------------

  ghost function LayoutOf(fs: seq<Field>): map<string, string> {
    map id | id in Ids(fs) :: GetById(fs, id).value.name
  }

  ghost function DatumOf(tbl: Table, fs: seq<Field>, f: Field): Data
    requires TableOf(tbl, fs) && f in fs
  {
    assert Matches(tbl, f);
    Data(tbl.columns[Fold(f.name)].ctype, tbl.columns[Fold(f.name)].cells)
  }

  ghost function DataOf(tbl: Table, fs: seq<Field>): map<string, Data>
    requires TableOf(tbl, fs)
  {
    map id | id in Ids(fs) :: DatumOf(tbl, fs, GetById(fs, id).value)
  }

  lemma TableOwned(tbl: Table, fs: seq<Field>)
    requires TableOf(tbl, fs) && NoDuplicates(fs)
    ensures Owned(tbl.columns, LayoutOf(fs), DataOf(tbl, fs))
  {
    var cols, layout, data := tbl.columns, LayoutOf(fs), DataOf(tbl, fs);
    forall a | a in layout ensures Places(cols, layout, data, a) {
      assert Matches(tbl, GetById(fs, a).value);
    }
    forall a, b | a in layout && b in layout ensures Apart(layout, a, b) {
      var f, g := GetById(fs, a).value, GetById(fs, b).value;
      if Fold(f.name) == Fold(g.name) { SameName(fs, f, g); }
    }
    forall k | k in cols ensures exists a :: a in layout && Fold(layout[a]) == k {
      var f :| f in fs && Fold(f.name) == k;
      GetByIdMember(fs, f);
      assert f.id in layout && layout[f.id] == f.name;
    }
  }

  lemma OpenedStage(db: Database, old_: Collection, new_: Collection)
    requires InSync(db, old_) && NoDuplicates(old_.fields)
    requires NeedTableRename(old_, new_) ==> !WithoutIndexes(db, old_).Taken(new_.name)
    ensures var d := Opened(db, old_, new_);
            && Fold(new_.name) in d.tables
            && d.tables[Fold(new_.name)] == db.tables[Fold(old_.name)]
            && Stage(d, d, new_.name, LayoutOf(old_.fields), DataOf(db.tables[Fold(old_.name)], old_.fields))
            && ViewsApart(d) && TableOf(d.tables[Fold(new_.name)], old_.fields)
  {
    var d, bare, tbl := Opened(db, old_, new_), WithoutIndexes(db, old_), db.tables[Fold(old_.name)];
    assert bare.NoIndexOn(old_.name);
    assert d.NoIndexOn(new_.name) by {
      if NeedTableRename(old_, new_) {
        assert forall n | n in bare.indexes :: bare.indexes[n].table in db.tables;
      }
    }
    assert d.tables[Fold(new_.name)] == tbl;
    assert d == d.WithColumns(new_.name, tbl.columns);
    hide NoDuplicates;
    TableOwned(tbl, old_.fields);
  }

  lemma KeptPlaced(old_: seq<Field>, new_: seq<Field>, suffix: nat -> string)
    ensures Placed(old_, new_, suffix, map[], LayoutOf(old_) - (Ids(old_) - Ids(new_)), 0)
  {
    var layout := LayoutOf(old_) - (Ids(old_) - Ids(new_));
    forall id | id in layout ensures exists j :: 0 <= j < |new_| && new_[j].id == id && (j < 0 || id in Ids(old_)) {
      var f :| f in new_ && f.id == id;
      var j :| 0 <= j < |new_| && new_[j] == f;
    }
    forall j | 0 <= j < |new_| ensures OldPlaceAt(old_, new_, layout, j) {
      assert new_[j] in new_;
    }
  }

  lemma AllSettled(old_: seq<Field>, new_: seq<Field>, suffix: nat -> string, layout: map<string, string>)
    requires Placed(old_, new_, suffix, map[], layout, |new_|)
    ensures Settled(new_, layout)
  {
    forall j | 0 <= j < |new_| ensures new_[j].id in layout && layout[new_[j].id] == new_[j].name {
      assert PlacedAt(old_, new_, suffix, map[], layout, j);
    }
    forall id ensures id in layout <==> id in Ids(new_) {
      if id in layout {
        var j :| 0 <= j < |new_| && new_[j].id == id;
        assert new_[j] in new_;
      }
      if id in Ids(new_) {
        var f :| f in new_ && f.id == id;
        var j :| 0 <= j < |new_| && new_[j] == f;
      }
    }
  }

  /** Settled, inherited and normalized data is the final table. */
  lemma FinalColumns(tbl: Table, old_: seq<Field>, new_: seq<Field>, cols: map<string, Column>,
                     layout: map<string, string>, data1: map<string, Data>, data: map<string, Data>)
    requires NoDuplicates(new_) && TableOf(tbl, old_)
    requires Owned(cols, layout, data) && Settled(new_, layout)
    requires Inherits(DataOf(tbl, old_) - (Ids(old_) - Ids(new_)), data1, new_, tbl.size, |new_|)
    requires NormalizedUpTo(old_, new_, data1, data, |new_|)
    requires TypesKept(old_, new_)
    ensures cols == FinalTable(tbl, old_, new_).columns
  {
    var final := FinalTable(tbl, old_, new_).columns;
    hide NoDuplicates, TableOf, Inherits, NormalizedUpTo, FinalColumn, TypesKept;
    forall k | k in final ensures k in cols && cols[k] == final[k] {
      var f := FieldNamed(new_, k).value;
      var j :| 0 <= j < |new_| && new_[j] == f;
      assert Places(cols, layout, data, f.id);
      FinalDatum(tbl, old_, new_, data1, data, j);
    }
    hide Places, Apart;
    forall k | k in cols ensures k in final {
      var a :| a in layout && Fold(layout[a]) == k;
      var j := IndexOfId(new_, a);
      assert new_[j] in new_ && layout[new_[j].id] == new_[j].name;
    }
  }

  lemma IndexOfId(fs: seq<Field>, id: string) returns (j: nat)
    requires id in Ids(fs)
    ensures j < |fs| && fs[j].id == id
  {
    var f :| f in fs && f.id == id;
    j :| j < |fs| && fs[j] == f;
  }

  /** A kept column whose multiplicity did not change has its new type already. */
  ghost predicate TypesKept(old_: seq<Field>, new_: seq<Field>) {
    forall f | f in new_ && GetById(old_, f.id).Some? && !MultiplicityChanged(old_, f) ::
      GetById(old_, f.id).value.ColumnType() == f.ColumnType()
  }

  lemma FinalDatum(tbl: Table, old_: seq<Field>, new_: seq<Field>, data1: map<string, Data>, data: map<string, Data>,
                   j: nat)
    requires TableOf(tbl, old_) && j < |new_|
    requires Inherits(DataOf(tbl, old_) - (Ids(old_) - Ids(new_)), data1, new_, tbl.size, |new_|)
    requires NormalizedUpTo(old_, new_, data1, data, |new_|)
    requires TypesKept(old_, new_)
    ensures new_[j].id in data
    ensures FinalColumn(tbl, old_, new_[j]) == Column(new_[j].name, data[new_[j].id].ctype, data[new_[j].id].cells)
  {
    var f, kept := new_[j], DataOf(tbl, old_) - (Ids(old_) - Ids(new_));
    assert f in new_;
    assert data1[f.id] == Inherited(kept, f, tbl.size);
    assert data[f.id] == Normalized(old_, f, data1[f.id]);
    var o := GetById(old_, f.id);
    if o.Some? {
      assert Matches(tbl, o.value);
    } else if MultiplicityChanged(old_, f) {
      // a new multiple column holds [] in every row, which ToMultiple keeps
      assert Mapped(data1[f.id].cells, ToMultiple) == data1[f.id].cells;
    }
  }

  // ---- the update ---------------------------------------------------------------------------------------

  ghost predicate Ready(db: Database, old_: Collection, new_: Collection, suffix: nat -> string,
                        suffix2: nat -> string) {
    && InSync(db, old_) && Stored(old_.fields) && (forall d | d in old_.indexes :: d.valid)
    && ValidUpdate(old_.fields, new_.fields) && ValidIndexes(db, old_.name, new_.name, new_.indexes)
    && FreshNames(old_.fields, new_.fields, suffix) && FreshAmong(new_.fields, suffix2)
  }

  /** No dropped, added or converted column is the primary key. */
  ghost predicate KeysSafe(data: map<string, Data>, old_: seq<Field>, new_: seq<Field>) {
    && (forall id | id in data && id !in Ids(new_) :: !data[id].ctype.KeyColumn?)
    && (forall f | f in new_ && f.id !in Ids(old_) :: !f.ColumnType().KeyColumn?)
    && (forall f | f in new_ && MultiplicityChanged(old_, f) ::
          !f.ColumnType().KeyColumn? && (f.id in data ==> !data[f.id].ctype.KeyColumn?))
  }

  lemma ConvertedIsNoKey(old_: seq<Field>, new_: seq<Field>, f: Field)
    requires Stored(old_) && ValidUpdate(old_, new_) && f in new_ && MultiplicityChanged(old_, f)
    ensures !f.ColumnType().KeyColumn?
    ensures GetById(old_, f.id).Some? ==> !GetById(old_, f.id).value.ColumnType().KeyColumn?
  {
    hide Stored, ValidUpdate;
    if GetById(old_, f.id).Some? { KindAndKeyKept(old_, new_, GetById(old_, f.id).value, f); }
  }

  lemma DataTypes(tbl: Table, fs: seq<Field>)
    requires TableOf(tbl, fs)
    ensures DataOf(tbl, fs).Keys == Ids(fs)
    ensures forall id | id in Ids(fs) :: DataOf(tbl, fs)[id].ctype == GetById(fs, id).value.ColumnType()
  {
    forall id | id in Ids(fs) ensures DataOf(tbl, fs)[id].ctype == GetById(fs, id).value.ColumnType() {
      assert Matches(tbl, GetById(fs, id).value);
    }
  }

  lemma KeysUntouched(data: map<string, Data>, old_: seq<Field>, new_: seq<Field>)
    requires Stored(old_) && ValidUpdate(old_, new_)
    requires data.Keys == Ids(old_)
    requires forall id | id in data :: data[id].ctype == GetById(old_, id).value.ColumnType()
    ensures KeysSafe(data, old_, new_)
  {
    hide Stored, ValidUpdate, MultiplicityChanged;
    forall id | id in data && id !in Ids(new_) ensures !data[id].ctype.KeyColumn? {
      OnlyIdIsPrimaryKey(old_, new_, GetById(old_, id).value);
    }
    forall f | f in new_ && f.id !in Ids(old_) ensures !f.ColumnType().KeyColumn? {
      OnlyIdIsPrimaryKey(old_, new_, f);
    }
    forall f | f in new_ && MultiplicityChanged(old_, f)
      ensures !f.ColumnType().KeyColumn? && (f.id in data ==> !data[f.id].ctype.KeyColumn?)
    {
      ConvertedIsNoKey(old_, new_, f);
    }
  }

  lemma UnconvertedTypesKept(old_: seq<Field>, new_: seq<Field>)
    requires Stored(old_) && ValidUpdate(old_, new_)
    ensures TypesKept(old_, new_)
  {
    hide Stored, ValidUpdate;
    forall f | f in new_ && GetById(old_, f.id).Some? && !MultiplicityChanged(old_, f)
      ensures GetById(old_, f.id).value.ColumnType() == f.ColumnType()
    {
      ColumnTypeKept(old_, new_, GetById(old_, f.id).value, f);
    }
  }

  /** What the column statements start from. */
  lemma Prepared(db0: Database, t: string, old_: seq<Field>, new_: seq<Field>)
    returns (layout: map<string, string>, data: map<string, Data>, kept: string)
    requires Fold(t) in db0.tables && TableOf(db0.tables[Fold(t)], old_)
    requires Stored(old_) && ValidUpdate(old_, new_)
    ensures layout == LayoutOf(old_) && data == DataOf(db0.tables[Fold(t)], old_)
    ensures layout.Keys == data.Keys == Ids(old_) && forall f | f in old_ :: layout[f.id] == f.name
    ensures kept in Ids(old_) * Ids(new_)
    ensures KeysSafe(data, old_, new_) && TypesKept(old_, new_)
    ensures NoDuplicates(old_) && NoDuplicates(new_)
  {
    layout, data := LayoutOf(old_), DataOf(db0.tables[Fold(t)], old_);
    kept := GetByName(old_, "id").value.id;
    PrimaryKeyKept(old_, new_);
    assert GetByName(old_, "id").value in old_ && GetByName(new_, "id").value in new_;
    assert kept in Ids(old_) * Ids(new_);
    LayoutNames(old_);
    hide Stored, ValidUpdate, NoDuplicates;
    DataTypes(db0.tables[Fold(t)], old_);
    KeysUntouched(data, old_, new_);
    UnconvertedTypesKept(old_, new_);
  }

  /** The column statements of an update, all of them accepted, leave the final table. */
  method MigrateColumns(tx: SqlSession, t: string, old_: seq<Field>, new_: seq<Field>,
                        suffix: nat -> string, suffix2: nat -> string, ghost good: bool)
    returns (ok: bool)
    requires good ==> Fold(t) in tx.db.tables && TableOf(tx.db.tables[Fold(t)], old_) && ViewsApart(tx.db)
    requires good ==> Stage(tx.db, tx.db, t, LayoutOf(old_), DataOf(tx.db.tables[Fold(t)], old_))
    requires good ==>
               Stored(old_) && ValidUpdate(old_, new_) && FreshNames(old_, new_, suffix) && FreshAmong(new_, suffix2)
    modifies tx`db
    ensures good ==>
              ok && tx.db == old(tx.db).WithColumns(t, FinalTable(old(tx.db).tables[Fold(t)], old_, new_).columns)
    ensures old_ == new_ && NoDuplicates(new_) ==> ok && tx.db == old(tx.db)
  {
    hide Stage, Stored, ValidUpdate, NoDuplicates, FreshNames, FreshAmong, Placed, Inherits, NormalizedUpTo, TableOf,
         MultiplicityChanged, Moved, ViewsApart, FinalTable, TypesKept, Settled, PendingOf, LayoutOf, DataOf;
    ghost var db0 := tx.db;
    ghost var layout: map<string, string>, data: map<string, Data>, kept := map[], map[], "";
    ghost var gone, size := Ids(old_) - Ids(new_), 0;
    if good {
      layout, data, kept := Prepared(db0, t, old_, new_);
      size := db0.tables[Fold(t)].size;
      KeptPlaced(old_, new_, suffix);
    }
    ghost var data0 := data;
    SameFields(old_, new_);
    ok := DropRemovedColumns(tx, t, old_, new_, good, db0, layout, data0, kept);
    if !ok { return; }
    var toRename;
    ghost var data1;
    ok, toRename, layout, data1 := StageColumns(tx, t, old_, new_, suffix, good, db0, size, layout - gone,
                                                data0 - gone);
    if !ok { return; }
    ok, layout := SettleNames(tx, t, toRename, good, db0, layout, data1, old_, new_, suffix);
    if !ok { return; }
    if good {
      AllSettled(old_, new_, suffix, layout);
      ReadyToNormalize(data0, gone, data1, old_, new_, size);
    }
    ok, data := NormalizeSingleVsMultiple(tx, t, old_, new_, suffix2, good, db0, layout, data1);
    if good { Migrated(db0, tx.db, t, old_, new_, layout, data1, data); }
  }

  lemma LayoutNames(fs: seq<Field>)
    requires NoDuplicates(fs)
    ensures LayoutOf(fs).Keys == Ids(fs) && forall f | f in fs :: LayoutOf(fs)[f.id] == f.name
  {
    forall f | f in fs ensures GetById(fs, f.id) == Some(f) { GetByIdMember(fs, f); }
  }

  lemma SameFields(old_: seq<Field>, new_: seq<Field>)
    ensures old_ == new_ && NoDuplicates(new_) ==>
              forall f | f in new_ :: !Moved(old_, f) && !MultiplicityChanged(old_, f)
  {
    if old_ == new_ && NoDuplicates(new_) {
      forall f | f in new_ ensures !Moved(old_, f) && !MultiplicityChanged(old_, f) { GetByIdMember(new_, f); }
    }
  }

  lemma ReadyToNormalize(data0: map<string, Data>, gone: set<string>, data1: map<string, Data>,
                         old_: seq<Field>, new_: seq<Field>, size: nat)
    requires Inherits(data0 - gone, data1, new_, size, |new_|)
    requires KeysSafe(data0, old_, new_)
    ensures NormalizedUpTo(old_, new_, data1, data1, 0)
    ensures forall f | f in new_ && MultiplicityChanged(old_, f) ::
              f.id in data1 && !data1[f.id].ctype.KeyColumn? && !f.ColumnType().KeyColumn?
  {
    forall f | f in new_ && MultiplicityChanged(old_, f) ensures f.id in data1 && !data1[f.id].ctype.KeyColumn? {
      var j :| 0 <= j < |new_| && new_[j] == f;
      assert data1[new_[j].id] == Inherited(data0 - gone, new_[j], size);
    }
  }

  lemma Migrated(db0: Database, db: Database, t: string, old_: seq<Field>, new_: seq<Field>,
                 layout: map<string, string>, data1: map<string, Data>, data: map<string, Data>)
    requires Stage(db0, db, t, layout, data) && TableOf(db0.tables[Fold(t)], old_)
    requires NoDuplicates(new_) && Settled(new_, layout) && TypesKept(old_, new_)
    requires Inherits(DataOf(db0.tables[Fold(t)], old_) - (Ids(old_) - Ids(new_)), data1, new_,
                      db0.tables[Fold(t)].size, |new_|)
    requires NormalizedUpTo(old_, new_, data1, data, |new_|)
    ensures db == db0.WithColumns(t, FinalTable(db0.tables[Fold(t)], old_, new_).columns)
  {
    hide NoDuplicates, Owned, Settled, TypesKept, Inherits, NormalizedUpTo, TableOf;
    FinalColumns(db0.tables[Fold(t)], old_, new_, db.tables[Fold(t)].columns, layout, data1, data);
  }

  lemma IndexesFree(db: Database, old_: Collection, new_: Collection)
    requires InSync(db, old_) && ValidIndexes(db, old_.name, new_.name, new_.indexes)
    requires NeedTableRename(old_, new_) ==> !WithoutIndexes(db, old_).Taken(new_.name)
    ensures forall d | d in new_.indexes :: d.valid && Fold(d.name) !in Opened(db, old_, new_).indexes
  {
    forall d | d in new_.indexes ensures Fold(d.name) !in Opened(db, old_, new_).indexes {
      if Fold(d.name) in db.indexes {
        assert db.indexes[Fold(d.name)].table in db.tables;
        assert Fold(d.name) in IndexNames(old_.indexes);
      }
    }
  }

  lemma TriedAll(db0: Database, db: Database, d: Database, tbl: Table, c: Collection,
                 admits: (Table, IndexDef) -> bool, failed: bool)
    requires Fold(c.name) in d.tables
    requires db0 == d.(tables := d.tables[Fold(c.name) := tbl])
    requires Tried(db0, db, c, admits, |c.indexes|, failed)
    ensures !failed <==> forall def | def in c.indexes :: FitsTable(d, tbl, def, admits)
    ensures !failed ==> db == d.(tables := d.tables[Fold(c.name) := tbl],
                                 indexes := d.indexes + IndexMap(c.name, c.indexes))
  {
    assert c.indexes[..|c.indexes|] == c.indexes;
    assert forall def :: FitsTable(db0, tbl, def, admits) <==> FitsTable(d, tbl, def, admits);
    hide FitsTable;
    assert forall j | 0 <= j < |c.indexes| :: c.indexes[j] in c.indexes;
  }

  /** What the statements after DROP INDEX and RENAME TABLE start from. */
  lemma ReadyOpened(db: Database, old_: Collection, new_: Collection, suffix: nat -> string, suffix2: nat -> string)
    requires Ready(db, old_, new_, suffix, suffix2)
    requires NeedTableRename(old_, new_) ==> !WithoutIndexes(db, old_).Taken(new_.name)
    ensures var d := Opened(db, old_, new_);
            && Fold(new_.name) in d.tables
            && d.tables[Fold(new_.name)] == db.tables[Fold(old_.name)]
            && TableOf(d.tables[Fold(new_.name)], old_.fields) && ViewsApart(d)
            && Stage(d, d, new_.name, LayoutOf(old_.fields), DataOf(d.tables[Fold(new_.name)], old_.fields))
            && Stored(old_.fields) && ValidUpdate(old_.fields, new_.fields)
            && FreshNames(old_.fields, new_.fields, suffix) && FreshAmong(new_.fields, suffix2)
  {
    OpenedStage(db, old_, new_);
  }

  lemma CreatableAfter(db: Database, old_: Collection, new_: Collection, cols: map<string, Column>)
    requires InSync(db, old_) && ValidIndexes(db, old_.name, new_.name, new_.indexes)
    requires NeedTableRename(old_, new_) ==> !WithoutIndexes(db, old_).Taken(new_.name)
    requires Fold(new_.name) in Opened(db, old_, new_).tables
    ensures Creatable(Opened(db, old_, new_).WithColumns(new_.name, cols), new_)
  {
    IndexesFree(db, old_, new_);
  }

  /** Fits, over the opened database and the final table. */
  ghost predicate AllFit(d: Database, tbl: Table, indexes: seq<IndexDef>, admits: (Table, IndexDef) -> bool) {
    forall def | def in indexes :: FitsTable(d, tbl, def, admits)
  }

  lemma IndexesCreated(db: Database, old_: Collection, new_: Collection, migrated: Database, after: Database,
                       admits: (Table, IndexDef) -> bool, failed: bool)
    requires Fold(old_.name) in db.tables
    requires NeedTableRename(old_, new_) ==> !WithoutIndexes(db, old_).Taken(new_.name)
    requires var d := Opened(db, old_, new_);
             && Fold(new_.name) in d.tables && d.tables[Fold(new_.name)] == db.tables[Fold(old_.name)]
             && migrated ==
                d.WithColumns(new_.name, FinalTable(d.tables[Fold(new_.name)], old_.fields, new_.fields).columns)
    requires Fold(new_.name) in migrated.tables
    requires Tried(migrated, after, new_, admits, |new_.indexes|, failed)
    ensures !failed <==> Fits(db, old_, new_, admits)
    ensures !failed ==> after == Synced(db, old_, new_)
  {
    hide Tried, FitsTable, Opened, WithoutIndexes;
    var d := Opened(db, old_, new_);
    TriedAll(migrated, after, d, FinalTable(db.tables[Fold(old_.name)], old_.fields, new_.fields), new_, admits,
             failed);
  }

  /** An update that is judged needless is: the database already matches the new collection. */
  lemma NeedlessIsInSync(db: Database, old_: Collection, new_: Collection, suffix: nat -> string,
                         suffix2: nat -> string)
    requires Ready(db, old_, new_, suffix, suffix2) && !NeedIndexesUpdate(old_, new_)
    ensures InSync(db, new_)
  {
  }

  /** The update of an existing table. A validated update is accepted exactly when the new table
      name and the new indexes fit, and then leaves exactly the specified database, which matches the
      new collection. */
  method UpdateRecordTable(tx: SqlSession, old_: Collection, new_: Collection, suffix: nat -> string,
                           suffix2: nat -> string, admits: (Table, IndexDef) -> bool)
    returns (ok: bool)
    modifies tx`db
    ensures Ready(old(tx.db), old_, new_, suffix, suffix2) ==>
      if NeedIndexesUpdate(old_, new_)
      then (ok <==> Fits(old(tx.db), old_, new_, admits)) && (ok ==> tx.db == Synced(old(tx.db), old_, new_))
      else ok && tx.db == old(tx.db)
    ensures Ready(old(tx.db), old_, new_, suffix, suffix2) && ok ==> InSync(tx.db, new_)
  {
    hide InSync, Stored, ValidUpdate, ValidIndexes, NoDuplicates, ViewsApart, Stage, FreshNames, FreshAmong, FinalTable,
         FitsTable, Tried, Creatable, TableOf, LayoutOf, DataOf, WithoutIndexes, Synced;
    ghost var db, good := tx.db, Ready(tx.db, old_, new_, suffix, suffix2);
    if good { ReadyFacts(db, old_, new_, suffix, suffix2); }
    var need := NeedIndexesUpdate(old_, new_);
    if need { DropCollectionIndexes(tx, old_); }
    if NeedTableRename(old_, new_) {
      ok := tx.RenameTable(old_.name, new_.name);
      if !ok { return; }
    }
    ghost var d, change := tx.db, good && need;
    if change { ReadyOpened(db, old_, new_, suffix, suffix2); }
    hide Ready, Opened, Fits;
    ok := MigrateColumns(tx, new_.name, old_.fields, new_.fields, suffix, suffix2, change);
    if !ok { return; }
    if good && !need { NeedlessIsInSync(db, old_, new_, suffix, suffix2); }
    if need {
      ghost var migrated := tx.db;
      if change {
        CreatableAfter(db, old_, new_, FinalTable(d.tables[Fold(new_.name)], old_.fields, new_.fields).columns);
      }
      ok := CreateCollectionIndexes(tx, new_, admits);
      if change { IndexesCreated(db, old_, new_, migrated, tx.db, admits, !ok); }
      if change && ok { SyncedInSync(db, old_, new_, suffix, suffix2, admits); }
    }
  }

  const ID_FIELD := Field("f1", "id", Text, true, true, false, "")
  const ID_TABLE := Table(map["id" := Column("id", KeyColumn, [])], 0)
  const TWO_TABLES := Database(map["a" := ID_TABLE, "b" := ID_TABLE], map["x" := Index("b", {"id"})], map[])

  lemma IdFieldIsValid()
    ensures Stored([ID_FIELD]) && ValidUpdate([ID_FIELD], [ID_FIELD])
    ensures FreshNames([ID_FIELD], [ID_FIELD], _ => "_") && FreshAmong([ID_FIELD], _ => "_")
  {
    var fs := [ID_FIELD];
    assert GetByName(fs, "id") == Some(ID_FIELD) && GetById(fs, "f1") == Some(ID_FIELD);
    assert |Fold("id")| == 2;
    assert |Fold(TempName(fs, _ => "_", 0))| == 3 && |Fold("_" + TempName(fs, _ => "_", 0))| == 4;
  }

  lemma TwoTablesInSync()
    ensures Fold("a") == "a" && Fold("X") == "x"
    ensures InSync(TWO_TABLES, Collection("a", Base, [ID_FIELD], []))
  {
    assert Fold("a") == "a" && Fold("X") == "x" && Fold("id") == "id";
    assert NameKeys([ID_FIELD]) == {"id"};
    assert Matches(ID_TABLE, ID_FIELD);
    assert "a"[0] != "b"[0];
  }

  /** A validated update can still be refused: here the new name of the collection is, in
      another case, the name of an index of another table. */
  lemma IndexNameBlocksRename(admits: (Table, IndexDef) -> bool)
    ensures
      var old_, new_ := Collection("a", Base, [ID_FIELD], []), Collection("X", Base, [ID_FIELD], []);
      && Ready(TWO_TABLES, old_, new_, _ => "_", _ => "_") && NeedIndexesUpdate(old_, new_)
      && Fold("a") in TWO_TABLES.tables && !Fits(TWO_TABLES, old_, new_, admits)
  {
    hide InSync, Stored, ValidUpdate, FreshNames, FreshAmong, Fold;
    IdFieldIsValid();
    TwoTablesInSync();
    assert "a"[0] != "x"[0];
    assert IndexNames([]) == {};
    assert WithoutIndexes(TWO_TABLES, Collection("a", Base, [ID_FIELD], [])) == TWO_TABLES;
  }

  lemma ReadyFacts(db: Database, old_: Collection, new_: Collection, suffix: nat -> string, suffix2: nat -> string)
    requires Ready(db, old_, new_, suffix, suffix2)
    ensures Fold(old_.name) in db.tables && Fold(old_.name) in WithoutIndexes(db, old_).tables
    ensures InSync(db, old_) && ValidIndexes(db, old_.name, new_.name, new_.indexes) && NoDuplicates(new_.fields)
  {
  }

  // ---- what the specification means ----------------------------------------------------------------------

  lemma FinalTableAt(tbl: Table, old_: seq<Field>, new_: seq<Field>, f: Field)
    requires NoDuplicates(new_) && f in new_
    ensures Fold(f.name) in FinalTable(tbl, old_, new_).columns
    ensures FinalTable(tbl, old_, new_).columns[Fold(f.name)] == FinalColumn(tbl, old_, f)
  {
    SameName(new_, f, FieldNamed(new_, Fold(f.name)).value);
  }

  /** Every old field keeps its cells under its id: whatever was dropped, added, renamed or
      swapped, the column now called after a kept field holds, row by row, what the column
      called after it before held, wrapped into an array or reduced to its last element if
      the multiplicity changed; a new field's column holds its default; and no other column is left. */
  lemma DataFollowsFieldId(tbl: Table, old_: seq<Field>, new_: seq<Field>, f: Field, row: nat)
    requires TableOf(tbl, old_) && NoDuplicates(new_) && f in new_ && row < tbl.size
    ensures var final := FinalTable(tbl, old_, new_);
            && final.size == tbl.size && final.columns.Keys == NameKeys(new_)
            && var c := final.columns[Fold(f.name)];
            && c.name == f.name && c.ctype == f.ColumnType() && |c.cells| == tbl.size
            && match GetById(old_, f.id) {
                 case None => c.cells[row] == f.ColumnType().Default()
                 case Some(o) =>
                   var was := tbl.columns[Fold(o.name)].cells;
                   |was| == tbl.size &&
                   if o.IsMultiple() == f.IsMultiple() then c.cells[row] == was[row]
                   else if f.IsMultiple() then Wrapped(was[row], c.cells[row])
                   else LastKept(was[row], c.cells[row])
               }
  {
    FinalTableAt(tbl, old_, new_, f);
    if GetById(old_, f.id).Some? {
      var o := GetById(old_, f.id).value;
      assert Matches(tbl, o);
      ToMultipleWraps(tbl.columns[Fold(o.name)].cells[row]);
      ToSingleKeepsLast(tbl.columns[Fold(o.name)].cells[row]);
    }
  }

  lemma FinalTableMatches(tbl: Table, old_: seq<Field>, new_: seq<Field>)
    requires TableOf(tbl, old_) && NoDuplicates(new_)
    ensures TableOf(FinalTable(tbl, old_, new_), new_)
  {
    forall f | f in new_ ensures Matches(FinalTable(tbl, old_, new_), f) {
      FinalTableAt(tbl, old_, new_, f);
      if GetById(old_, f.id).Some? { assert Matches(tbl, GetById(old_, f.id).value); }
    }
  }

  lemma NewIndexesThere(t: string, defs: seq<IndexDef>, d: IndexDef)
    requires DistinctNames(defs) && d in defs
    ensures Fold(d.name) in IndexMap(t, defs) && IndexMap(t, defs)[Fold(d.name)] == Index(Fold(t), d.ColumnKeys())
  {
    var i :| 0 <= i < |defs| && defs[i] == d;
    IndexMapAt(t, defs, i);
  }

  /** An accepted update leaves a database that matches the new collection, so the next update
      starts where this one ended. */
  lemma SyncedInSync(db: Database, old_: Collection, new_: Collection, suffix: nat -> string, suffix2: nat -> string,
                     admits: (Table, IndexDef) -> bool)
    requires Ready(db, old_, new_, suffix, suffix2) && Fits(db, old_, new_, admits)
    ensures InSync(Synced(db, old_, new_), new_)
  {
    hide Stored, ValidUpdate, ValidIndexes, FreshNames, FreshAmong, NoDuplicates, TableOf, FinalTable, ViewsApart,
         IndexesOf, Stage, Opened, Synced, LayoutOf, DataOf;
    ReadyFacts(db, old_, new_, suffix, suffix2);
    ReadyOpened(db, old_, new_, suffix, suffix2);
    SyncedTable(db, old_, new_);
    hide Ready;
    FinalTableMatches(db.tables[Fold(old_.name)], old_.fields, new_.fields);
    SyncedIndexes(db, old_, new_, admits);
    SyncedViews(db, old_, new_, admits);
  }

  lemma SyncedTable(db: Database, old_: Collection, new_: Collection)
    requires Fold(old_.name) in db.tables
    ensures Fold(new_.name) in Synced(db, old_, new_).tables
    ensures Synced(db, old_, new_).tables[Fold(new_.name)] ==
            FinalTable(db.tables[Fold(old_.name)], old_.fields, new_.fields)
  {
  }

  lemma SyncedViews(db: Database, old_: Collection, new_: Collection, admits: (Table, IndexDef) -> bool)
    requires Fold(old_.name) in db.tables && Fits(db, old_, new_, admits)
    requires ViewsApart(Opened(db, old_, new_)) && Fold(new_.name) in Opened(db, old_, new_).tables
    ensures ViewsApart(Synced(db, old_, new_))
  {
    var d := Opened(db, old_, new_);
    IndexMapKeys(new_.name, new_.indexes);
    hide FinalTable, IndexMap, Opened;
    forall def | def in new_.indexes ensures Fold(def.name) !in d.views {
      assert FitsTable(d, FinalTable(db.tables[Fold(old_.name)], old_.fields, new_.fields), def, admits);
    }
  }

  lemma SyncedIndexes(db: Database, old_: Collection, new_: Collection, admits: (Table, IndexDef) -> bool)
    requires InSync(db, old_) && ValidIndexes(db, old_.name, new_.name, new_.indexes) && Fits(db, old_, new_, admits)
    ensures IndexesOf(Synced(db, old_, new_), new_)
    ensures Synced(db, old_, new_).IndexesSound()
  {
    var d, after := Opened(db, old_, new_), Synced(db, old_, new_);
    var final := FinalTable(db.tables[Fold(old_.name)], old_.fields, new_.fields);
    IndexMapKeys(new_.name, new_.indexes);
    hide FinalTable, IndexMap;
    forall def | def in new_.indexes
      ensures Fold(def.name) in after.indexes && after.indexes[Fold(def.name)]
              == Index(Fold(new_.name), def.ColumnKeys())
    {
      NewIndexesThere(new_.name, new_.indexes, def);
    }
    assert WithoutIndexes(db, old_).NoIndexOn(old_.name);
    forall n | n in d.indexes ensures d.indexes[n].table != Fold(new_.name) && d.indexes[n].table in db.tables
      && d.indexes[n].table != Fold(old_.name) && d.indexes[n] == db.indexes[n]
    {
      assert db.indexes[n].table in db.tables;
    }
    forall n | n in after.indexes
      ensures after.indexes[n].table in after.tables
      ensures after.indexes[n].columns <= after.tables[after.indexes[n].table].columns.Keys
    {
      if n in IndexNames(new_.indexes) {
        var def :| def in new_.indexes && Fold(def.name) == n;
        assert FitsTable(d, final, def, admits);
      }
    }
  }

  /** Nothing but the collection's own table and indexes changes. */
  lemma ElsewhereUntouched(db: Database, old_: Collection, new_: Collection)
    requires InSync(db, old_) && (NeedTableRename(old_, new_) ==> !WithoutIndexes(db, old_).Taken(new_.name))
    ensures var after := Synced(db, old_, new_);
            && after.views == db.views
            && (forall t | t in db.tables && t != Fold(old_.name) ::
                t in after.tables && after.tables[t] == db.tables[t])
            && (forall t | t in after.tables && t != Fold(new_.name) :: t in db.tables)
            && (forall n | n in db.indexes && db.indexes[n].table != Fold(old_.name) && n !in IndexNames(new_.indexes)
                :: n in after.indexes && after.indexes[n] == db.indexes[n])
  {
    IndexMapKeys(new_.name, new_.indexes);
  }

  lemma FinalKeys(tbl: Table, old_: seq<Field>, new_: seq<Field>)
    ensures FinalTable(tbl, old_, new_).columns.Keys == NameKeys(new_) && FinalTable(tbl, old_, new_).size == tbl.size
  {
  }

  /** The same fields by id, none of which changed its multiplicity: only names differ. */
  ghost predicate OnlyRenamed(old_: seq<Field>, new_: seq<Field>) {
    && (forall f | f in old_ :: GetById(new_, f.id).Some?)
    && (forall g | g in new_ :: GetById(old_, g.id).Some? && GetById(old_, g.id).value.IsMultiple() == g.IsMultiple())
  }

  lemma KeptColumn(tbl: Table, old_: seq<Field>, o: Field, f: Field)
    requires GetById(old_, f.id) == Some(o) && o.IsMultiple() == f.IsMultiple() && Fold(o.name) in tbl.columns
    ensures FinalColumn(tbl, old_, f) == Column(f.name, f.ColumnType(), tbl.columns[Fold(o.name)].cells)
  {
  }

  lemma RenameUndone(tbl: Table, old_: seq<Field>, new_: seq<Field>, f: Field)
    requires TableOf(tbl, old_) && NoDuplicates(old_) && NoDuplicates(new_) && f in old_ && OnlyRenamed(old_, new_)
    ensures var back := FinalTable(FinalTable(tbl, old_, new_), new_, old_);
            Fold(f.name) in back.columns && back.columns[Fold(f.name)] == tbl.columns[Fold(f.name)]
  {
    var there, g := FinalTable(tbl, old_, new_), GetById(new_, f.id).value;
    assert GetById(old_, g.id) == Some(f) by { GetByIdMember(old_, f); }
    assert Matches(tbl, f);
    FinalTableAt(tbl, old_, new_, g);
    FinalTableAt(there, new_, old_, f);
    hide FinalTable, NoDuplicates, TableOf, Fold, FinalColumn, GetById;
    KeptColumn(tbl, old_, f, g);
    KeptColumn(there, new_, g, f);
  }

  /** Undoing an update that only renames fields (swaps and cycles included) gives the table back. */
  lemma RenamesUndone(tbl: Table, old_: seq<Field>, new_: seq<Field>)
    requires TableOf(tbl, old_) && NoDuplicates(old_) && NoDuplicates(new_) && OnlyRenamed(old_, new_)
    ensures FinalTable(FinalTable(tbl, old_, new_), new_, old_) == tbl
  {
    hide FinalTable, NoDuplicates, OnlyRenamed, GetById, Fold, FieldNamed;
    var back := FinalTable(FinalTable(tbl, old_, new_), new_, old_);
    FinalKeys(tbl, old_, new_);
    FinalKeys(FinalTable(tbl, old_, new_), new_, old_);
    forall f | f in old_ ensures back.columns[Fold(f.name)] == tbl.columns[Fold(f.name)] {
      RenameUndone(tbl, old_, new_, f);
    }
    assert back.columns == tbl.columns;
  }

  // ---- creating a table, and the entry point ------------------------------------------------------------

  function NewTable(fs: seq<Field>): Table {
    Table(map k | k in NameKeys(fs) :: var f := FieldNamed(fs, k).value; Column(f.name, f.ColumnType(), []), 0)
  }

  /** `definitions` holds exactly the fields' columns. */
  ghost predicate Defines(definitions: map<string, ColumnType>, fs: seq<Field>) {
    && (forall n | n in definitions :: exists j :: 0 <= j < |fs| && n == fs[j].name)
    && (forall j | 0 <= j < |fs| :: fs[j].name in definitions && definitions[fs[j].name] == fs[j].ColumnType())
  }

  method ColumnDefinitions(fields: seq<Field>) returns (cols: map<string, ColumnType>)
    ensures NoDuplicates(fields) ==> Defines(cols, fields)
  {
    cols := map[];
    for i := 0 to |fields|
      invariant forall n | n in cols :: exists j :: 0 <= j < i && n == fields[j].name
      invariant NoDuplicates(fields) ==>
        forall j | 0 <= j < i :: fields[j].name in cols && cols[fields[j].name] == fields[j].ColumnType()
    {
      assert NoDuplicates(fields) ==> forall j | 0 <= j < i && fields[j].name == fields[i].name ::
             Clash(fields[j], fields[i]);
      cols := cols[fields[i].name := fields[i].ColumnType()];
    }
  }

  method CreateRecordTable(tx: SqlSession, c: Collection, admits: (Table, IndexDef) -> bool) returns (ok: bool)
    modifies tx`db
    ensures var db := old(tx.db);
            var d := db.(tables := db.tables[Fold(c.name) := NewTable(c.fields)]);
            NoDuplicates(c.fields) && c.fields != [] && Creatable(d, c) ==>
              && (ok <==> !db.Taken(c.name) && AllFit(d, NewTable(c.fields), c.indexes, admits))
              && (ok ==> tx.db == d.(indexes := d.indexes + IndexMap(c.name, c.indexes)))
              && (ok && db.IndexesSound() && ViewsApart(db) ==> InSync(tx.db, c))
  {
    hide NewTable, Tried, Creatable, FitsTable, NoDuplicates, Defines, IsEmptyTable, IndexMap, InSync, ViewsApart;
    ghost var db := tx.db;
    ghost var good := NoDuplicates(c.fields) && c.fields != [];
    var cols := ColumnDefinitions(c.fields);
    ghost var definitions := cols;
    if good { DistinctDefinitions(c.fields, definitions); }
    ok := tx.CreateTable(c.name, cols);
    if !ok { return; }
    if good { CreatedTable(c.fields, definitions, tx.db.tables[Fold(c.name)]); }
    ghost var d := tx.db;
    ok := CreateCollectionIndexes(tx, c, admits);
    if good && Creatable(d, c) {
      TriedAll(d, tx.db, d, NewTable(c.fields), c, admits, !ok);
      if ok && db.IndexesSound() && ViewsApart(db) { CreatedInSync(db, c, admits); }
    }
  }

  /** A table created for a collection matches it. */
  lemma CreatedInSync(db: Database, c: Collection, admits: (Table, IndexDef) -> bool)
    requires NoDuplicates(c.fields) && db.IndexesSound() && ViewsApart(db) && !db.Taken(c.name)
    requires var d := db.(tables := db.tables[Fold(c.name) := NewTable(c.fields)]);
             Creatable(d, c) && AllFit(d, NewTable(c.fields), c.indexes, admits)
    ensures var d := db.(tables := db.tables[Fold(c.name) := NewTable(c.fields)]);
            InSync(d.(indexes := d.indexes + IndexMap(c.name, c.indexes)), c)
  {
    var d := db.(tables := db.tables[Fold(c.name) := NewTable(c.fields)]);
    assert TableOf(NewTable(c.fields), c.fields) by { NewTableMatches(c.fields); }
    hide NoDuplicates, TableOf, Fold, NewTable, FitsTable, IndexMap, AllFit;
    CreatedIndexes(d, c, admits, NewTable(c.fields));
    CreatedSound(db, d, c, NewTable(c.fields), IndexMap(c.name, c.indexes));
  }

  lemma CreatedSound(db: Database, d: Database, c: Collection, tbl: Table, created: map<string, Index>)
    requires db.IndexesSound() && ViewsApart(db) && !db.Taken(c.name)
    requires d == db.(tables := db.tables[Fold(c.name) := tbl])
    requires created.Keys == IndexNames(c.indexes)
    requires forall def | def in c.indexes ::
               && created[Fold(def.name)] == Index(Fold(c.name), def.ColumnKeys())
               && def.ColumnKeys() <= tbl.columns.Keys && Fold(def.name) !in d.tables && Fold(def.name) !in d.views
    ensures var after := d.(indexes := d.indexes + created);
            IndexesOf(after, c) && after.IndexesSound() && ViewsApart(after)
  {
    var after := d.(indexes := d.indexes + created);
    assert forall n | n in db.indexes :: db.indexes[n].table in db.tables;
    forall n | n in after.indexes
      ensures after.indexes[n].table in after.tables
      ensures after.indexes[n].columns <= after.tables[after.indexes[n].table].columns.Keys
    {
      if n in created {
        var def :| def in c.indexes && Fold(def.name) == n;
      }
    }
  }

  lemma NewTableMatches(fs: seq<Field>)
    requires NoDuplicates(fs)
    ensures TableOf(NewTable(fs), fs)
  {
    forall f | f in fs ensures Matches(NewTable(fs), f) {
      SameName(fs, f, FieldNamed(fs, Fold(f.name)).value);
    }
  }

  lemma CreatedIndexes(d: Database, c: Collection, admits: (Table, IndexDef) -> bool, tbl: Table)
    requires DistinctNames(c.indexes) && AllFit(d, tbl, c.indexes, admits)
    ensures IndexMap(c.name, c.indexes).Keys == IndexNames(c.indexes)
    ensures forall def | def in c.indexes ::
              && IndexMap(c.name, c.indexes)[Fold(def.name)] == Index(Fold(c.name), def.ColumnKeys())
              && def.ColumnKeys() <= tbl.columns.Keys && Fold(def.name) !in d.tables && Fold(def.name) !in d.views
  {
    IndexMapKeys(c.name, c.indexes);
    forall def | def in c.indexes
      ensures IndexMap(c.name, c.indexes)[Fold(def.name)] == Index(Fold(c.name), def.ColumnKeys())
      ensures def.ColumnKeys() <= tbl.columns.Keys && Fold(def.name) !in d.tables && Fold(def.name) !in d.views
    {
      NewIndexesThere(c.name, c.indexes, def);
      assert FitsTable(d, tbl, def, admits);
    }
  }

  lemma DistinctDefinitions(fs: seq<Field>, definitions: map<string, ColumnType>)
    requires NoDuplicates(fs) && fs != [] && Defines(definitions, fs)
    ensures definitions != map[]
    ensures forall a, b | a in definitions && b in definitions && Fold(a) == Fold(b) :: a == b
  {
    assert fs[0].name in definitions;
    forall a, b | a in definitions && b in definitions && Fold(a) == Fold(b) ensures a == b {
      var i :| 0 <= i < |fs| && a == fs[i].name;
      var j :| 0 <= j < |fs| && b == fs[j].name;
      assert Clash(fs[i], fs[j]);
    }
  }

  lemma CreatedTable(fs: seq<Field>, definitions: map<string, ColumnType>, tbl: Table)
    requires NoDuplicates(fs) && IsEmptyTable(tbl, definitions) && Defines(definitions, fs)
    ensures tbl == NewTable(fs)
  {
    hide NoDuplicates, Fold;
    forall k | k in NameKeys(fs) ensures k in tbl.columns && tbl.columns[k] == NewTable(fs).columns[k] {
      var f := FieldNamed(fs, k).value;
      var j :| 0 <= j < |fs| && fs[j] == f;
      assert f.name in definitions && definitions[f.name] == f.ColumnType();
    }
    hide NewTable;
    forall k | k in tbl.columns ensures k in NameKeys(fs) {
      var n :| n in definitions && Fold(n) == k;
      var j :| 0 <= j < |fs| && n == fs[j].name;
      assert fs[j] in fs;
    }
    assert NewTable(fs).columns.Keys == NameKeys(fs) && NewTable(fs).size == 0 by { NewKeys(fs); }
  }

  lemma NewKeys(fs: seq<Field>)
    ensures NewTable(fs).columns.Keys == NameKeys(fs) && NewTable(fs).size == 0
  {
  }

  /** The entry point. Outside a transaction a failed sync leaves no trace; inside one the
      statements stay until the outer transaction ends. */
  method SyncRecordTableSchema(tx: SqlSession, inTransaction: bool, new_: Collection, old_: Option<Collection>,
                               suffix: nat -> string, suffix2: nat -> string, admits: (Table, IndexDef) -> bool)
    returns (ok: bool)
    modifies tx`db
    ensures new_.kind.View? ==> ok && tx.db == old(tx.db)
    ensures !ok && !inTransaction ==> tx.db == old(tx.db)
    ensures !new_.kind.View? && old_.Some? && Ready(old(tx.db), old_.value, new_, suffix, suffix2) ==>
      if NeedIndexesUpdate(old_.value, new_)
      then (ok <==> Fits(old(tx.db), old_.value, new_, admits))
          && (ok ==> tx.db == Synced(old(tx.db), old_.value, new_))
      else ok && tx.db == old(tx.db)
    ensures !new_.kind.View? && old_.Some? && Ready(old(tx.db), old_.value, new_, suffix, suffix2) && ok ==>
              InSync(tx.db, new_)
    ensures !new_.kind.View? && (old_.None? || Fold(old_.value.name) !in old(tx.db).tables) ==>
      var db := old(tx.db);
      var d := db.(tables := db.tables[Fold(new_.name) := NewTable(new_.fields)]);
      NoDuplicates(new_.fields) && new_.fields != [] && Creatable(d, new_) ==>
        && (ok <==> !db.Taken(new_.name) && AllFit(d, NewTable(new_.fields), new_.indexes, admits))
        && (ok ==> tx.db == d.(indexes := d.indexes + IndexMap(new_.name, new_.indexes)))
        && (ok && db.IndexesSound() && ViewsApart(db) ==> InSync(tx.db, new_))
  {
    hide ViewsApart, Ready, InSync, Fits, Synced, NeedIndexesUpdate;
    hide NoDuplicates, Creatable, AllFit, NewTable, IndexMap;
    if new_.kind.View? { return true; }
    var before := tx.db;
    if old_.None? || Fold(old_.value.name) !in tx.db.tables {
      if old_.Some? { NotReady(tx.db, old_.value, new_, suffix, suffix2); }
      ok := CreateRecordTable(tx, new_, admits);
    } else {
      ok := UpdateRecordTable(tx, old_.value, new_, suffix, suffix2, admits);
    }
    if !ok && !inTransaction { tx.db := before; }
  }

  lemma NotReady(db: Database, old_: Collection, new_: Collection, suffix: nat -> string, suffix2: nat -> string)
    requires Fold(old_.name) !in db.tables
    ensures !Ready(db, old_, new_, suffix, suffix2)
  {
  }
}
