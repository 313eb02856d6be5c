/** The column statements of a record table update (core/collection_record_table_sync.go:80-129
    and 158-366). Fields are matched by id and columns by name, so the proof follows which field
    id owns which column name, statement by statement. */
module ColumnMigration {
  import opened Wrappers
  import opened Names
  import opened RecordCells
  import opened RecordTable
  import opened CollectionSchema

  /** What a field owns in the table: its column type and one cell per row. */
  datatype Data = Data(ctype: ColumnType, cells: seq<Cell>)

  // ---- which field owns which column --------------------------------------------------------------

  ghost predicate Places(cols: map<string, Column>, layout: map<string, string>, data: map<string, Data>, a: string)
    requires a in layout && a in data
  {
    Fold(layout[a]) in cols && cols[Fold(layout[a])] == Column(layout[a], data[a].ctype, data[a].cells)
  }

  ghost predicate Apart(layout: map<string, string>, a: string, b: string)
    requires a in layout && b in layout
  {
    a != b ==> Fold(layout[a]) != Fold(layout[b])
  }

  /** The columns are exactly those the layout (field id to column name) places, with each
      field's data in its own column. */
  ghost predicate Owned(cols: map<string, Column>, layout: map<string, string>, data: map<string, Data>) {
    && layout.Keys == data.Keys
    && (forall a, b | a in layout && b in layout :: Apart(layout, a, b))
    && (forall a | a in layout :: Places(cols, layout, data, a))
    && (forall k | k in cols :: exists a :: a in layout && Fold(layout[a]) == k)
  }

  lemma PutOwned(cols: map<string, Column>, layout: map<string, string>, data: map<string, Data>,
                 id: string, n: string, d: Data)
    requires Owned(cols, layout, data) && id !in layout && Fold(n) !in cols
    ensures Owned(cols[Fold(n) := Column(n, d.ctype, d.cells)], layout[id := n], data[id := d])
  {
    var cols', layout', data' := cols[Fold(n) := Column(n, d.ctype, d.cells)], layout[id := n], data[id := d];
    forall a | a in layout' ensures Places(cols', layout', data', a) {
      if a != id { assert Places(cols, layout, data, a); }
    }
    forall a, b | a in layout' && b in layout' ensures Apart(layout', a, b) {
      if a != id && b != id { assert Apart(layout, a, b); }
      if a != id { assert Places(cols, layout, data, a); }
      if b != id { assert Places(cols, layout, data, b); }
    }
    forall k | k in cols' ensures exists a :: a in layout' && Fold(layout'[a]) == k {
      if k == Fold(n) {
        assert id in layout';
      } else {
        var a :| a in layout && Fold(layout[a]) == k;
        assert layout'[a] == layout[a];
      }
    }
  }

  lemma TakeOwned(cols: map<string, Column>, layout: map<string, string>, data: map<string, Data>, id: string)
    requires Owned(cols, layout, data) && id in layout
    ensures Owned(cols - {Fold(layout[id])}, layout - {id}, data - {id})
  {
    var cols', layout', data' := cols - {Fold(layout[id])}, layout - {id}, data - {id};
    forall a | a in layout' ensures Places(cols', layout', data', a) {
      assert Places(cols, layout, data, a) && Apart(layout, a, id);
    }
    forall a, b | a in layout' && b in layout' ensures Apart(layout', a, b) {
      assert Apart(layout, a, b);
    }
    forall k | k in cols' ensures exists a :: a in layout' && Fold(layout'[a]) == k {
      var a :| a in layout && Fold(layout[a]) == k;
      assert a in layout';
    }
  }

  /** Mid-update: table `t` of `db` holds `data` laid out by `layout`, no index is on it, and
      everything else is as it was in `db0`. */
  ghost predicate Stage(db0: Database, db: Database, t: string, layout: map<string, string>, data: map<string, Data>) {
    && Fold(t) in db0.tables
    && db0.NoIndexOn(t)
    && Fold(t) in db.tables
    && db == db0.WithColumns(t, db.tables[Fold(t)].columns)
    && Owned(db.tables[Fold(t)].columns, layout, data)
  }

  lemma RenameEffect(db: Database, t: string, a: string, b: string)
    requires Fold(t) in db.tables && Fold(a) in db.tables[Fold(t)].columns && db.NoIndexOn(t)
    ensures db.RenamedColumn(t, a, b) ==
            var cols := db.tables[Fold(t)].columns;
            db.WithColumns(t, (cols - {Fold(a)})[Fold(b) := cols[Fold(a)].(name := b)])
  {
    assert db.RenamedColumn(t, a, b).indexes == db.indexes;
  }

  lemma RestageColumns(db0: Database, db: Database, t: string, layout: map<string, string>, data: map<string, Data>,
                       cols: map<string, Column>, layout': map<string, string>, data': map<string, Data>)
    requires Stage(db0, db, t, layout, data) && Owned(cols, layout', data')
    ensures Stage(db0, db.WithColumns(t, cols), t, layout', data')
  {
  }

  lemma RenameStage(db0: Database, db: Database, t: string, layout: map<string, string>, data: map<string, Data>,
                    id: string, to: string)
    requires Stage(db0, db, t, layout, data) && id in layout
    requires Fold(to) !in db.tables[Fold(t)].columns
    ensures db.CanRenameColumn(t, layout[id], to)
    ensures Stage(db0, db.RenamedColumn(t, layout[id], to), t, layout[id := to], data)
  {
    var cols, from := db.tables[Fold(t)].columns, layout[id];
    assert Places(cols, layout, data, id);
    var cols' := (cols - {Fold(from)})[Fold(to) := Column(to, data[id].ctype, data[id].cells)];
    assert Owned(cols', layout[id := to], data) by {
      TakeOwned(cols, layout, data, id);
      PutOwned(cols - {Fold(from)}, layout - {id}, data - {id}, id, to, data[id]);
      assert (layout - {id})[id := to] == layout[id := to];
      assert (data - {id})[id := data[id]] == data;
    }
    RestageColumns(db0, db, t, layout, data, cols', layout[id := to], data);
    RenameEffect(db, t, from, to);
  }

  lemma AddStage(db0: Database, db: Database, t: string, layout: map<string, string>, data: map<string, Data>,
                 id: string, n: string, ctype: ColumnType)
    requires Stage(db0, db, t, layout, data) && id !in layout
    requires Fold(n) !in db.tables[Fold(t)].columns && !ctype.KeyColumn?
    ensures db.CanAddColumn(t, n, ctype)
    ensures Stage(db0, db.AddedColumn(t, n, ctype), t, layout[id := n],
                  data[id := Fresh(ctype, db0.tables[Fold(t)].size)])
  {
    PutOwned(db.tables[Fold(t)].columns, layout, data, id, n, Fresh(ctype, db0.tables[Fold(t)].size));
  }

  /** The data of a column that has just been added to a table of `size` rows. */
  function Fresh(ctype: ColumnType, size: nat): Data {
    Data(ctype, seq(size, _ => ctype.Default()))
  }

  lemma DropStage(db0: Database, db: Database, t: string, layout: map<string, string>, data: map<string, Data>,
                  id: string, other: string)
    requires Stage(db0, db, t, layout, data) && id in layout && other in layout && other != id
    requires !data[id].ctype.KeyColumn?
    ensures db.CanDropColumn(t, layout[id])
    ensures Stage(db0, db.DroppedColumn(t, layout[id]), t, layout - {id}, data - {id})
  {
    var cols := db.tables[Fold(t)].columns;
    assert Places(cols, layout, data, id) && Places(cols, layout, data, other) && Apart(layout, id, other);
    TakeOwned(cols, layout, data, id);
    SubsetSize({Fold(layout[id]), Fold(layout[other])}, cols.Keys);
  }

  lemma {:induction false} SubsetSize<T>(a: set<T>, b: set<T>)
    requires a <= b
    ensures |a| <= |b|
  {
    if a != {} {
      var x :| x in a;
      SubsetSize(a - {x}, b - {x});
    }
  }

  // ---- the loops over the old and the new fields --------------------------------------------------

  function TempName(new_: seq<Field>, suffix: nat -> string, j: nat): string
    requires j < |new_|
  {
    new_[j].name + suffix(j)
  }

  /** Temporary names carry a random suffix; the proof needs that no folded temporary name
      meets an old name, a new name or another temporary name. */
  ghost predicate FreshNames(old_: seq<Field>, new_: seq<Field>, suffix: nat -> string) {
    && (forall j, f | 0 <= j < |new_| && f in old_ :: Fold(TempName(new_, suffix, j)) != Fold(f.name))
    && (forall j, f | 0 <= j < |new_| && f in new_ :: Fold(TempName(new_, suffix, j)) != Fold(f.name))
    && (forall j, k | 0 <= j < k < |new_| :: Fold(TempName(new_, suffix, j)) != Fold(TempName(new_, suffix, k)))
  }

  predicate Moved(old_: seq<Field>, f: Field) {
    var o := GetById(old_, f.id);
    o.None? || o.value.name != f.name
  }

  /** The data each new field owns before any multiplicity change: what its old field owned,
      or the default of an added column. */
  function Inherited(data: map<string, Data>, f: Field, size: nat): Data {
    if f.id in data then data[f.id] else Fresh(f.ColumnType(), size)
  }

  lemma IdsOfPrefix(fs: seq<Field>, i: nat)
    requires i < |fs|
    ensures Ids(fs[..i + 1]) == Ids(fs[..i]) + {fs[i].id}
    ensures NoDuplicates(fs) ==> fs[i].id !in Ids(fs[..i])
    ensures fs[i].id in Ids(fs)
  {
    assert fs[..i + 1] == fs[..i] + [fs[i]];
    assert forall j | 0 <= j < i && fs[j].id == fs[i].id :: Clash(fs[i], fs[j]);
    assert fs[i] in fs;
  }

  /** DropStage, after the columns of `gone` went already. */
  lemma DropOneMore(db0: Database, db: Database, t: string, layout: map<string, string>, data: map<string, Data>,
                    gone: set<string>, id: string, other: string)
    requires layout.Keys == data.Keys && Stage(db0, db, t, layout - gone, data - gone)
    requires id in layout && other in layout && id !in gone && other !in gone && other != id
    requires !data[id].ctype.KeyColumn?
    ensures db.CanDropColumn(t, layout[id])
    ensures Stage(db0, db.DroppedColumn(t, layout[id]), t, layout - (gone + {id}), data - (gone + {id}))
  {
    DropStage(db0, db, t, layout - gone, data - gone, id, other);
    assert layout - gone - {id} == layout - (gone + {id});
    assert data - gone - {id} == data - (gone + {id});
  }

  /** Drops the columns of the removed fields. */
  method DropRemovedColumns(tx: SqlSession, t: string, old_: seq<Field>, new_: seq<Field>,
                            ghost good: bool, ghost db0: Database,
                            ghost layout: map<string, string>, ghost data: map<string, Data>, ghost kept: string)
    returns (ok: bool)
    requires good ==> NoDuplicates(old_) && Stage(db0, tx.db, t, layout, data)
    requires good ==> layout.Keys == data.Keys == Ids(old_) && forall f | f in old_ :: layout[f.id] == f.name
    requires good ==> kept in Ids(old_) * Ids(new_)
    requires good ==> forall id | id in data && id !in Ids(new_) :: !data[id].ctype.KeyColumn?
    modifies tx`db
    ensures good ==> ok && Stage(db0, tx.db, t, layout - (Ids(old_) - Ids(new_)), data - (Ids(old_) - Ids(new_)))
    ensures Ids(old_) <= Ids(new_) ==> ok && tx.db == old(tx.db)
  {
    hide Stage;
    hide NoDuplicates;
    ghost var gone: set<string> := {};
    assert layout - gone == layout && data - gone == data;
    for i := 0 to |old_|
      invariant gone == Ids(old_[..i]) - Ids(new_)
      invariant good ==> Stage(db0, tx.db, t, layout - gone, data - gone)
      invariant Ids(old_) <= Ids(new_) ==> tx.db == old(tx.db)
    {
      IdsOfPrefix(old_, i);
      if GetById(new_, old_[i].id).None? {
        if good { DropOneMore(db0, tx.db, t, layout, data, gone, old_[i].id, kept); }
        ok := tx.DropColumn(t, old_[i].name);
        if !ok { return; }
        gone := gone + {old_[i].id};
      }
    }
    assert old_[..|old_|] == old_;
    ok := true;
  }

  /** The column of new field `j` while `pending` holds the temporary names still to be settled. */
  function Place(old_: seq<Field>, new_: seq<Field>, suffix: nat -> string, pending: map<string, string>,
                 j: nat): string
    requires j < |new_|
  {
    if Moved(old_, new_[j]) && TempName(new_, suffix, j) in pending then TempName(new_, suffix, j) else new_[j].name
  }

  ghost predicate PlacedAt(old_: seq<Field>, new_: seq<Field>, suffix: nat -> string, pending: map<string, string>,
                           layout: map<string, string>, j: nat)
    requires j < |new_|
  {
    new_[j].id in layout && layout[new_[j].id] == Place(old_, new_, suffix, pending, j)
  }

  ghost predicate OldPlaceAt(old_: seq<Field>, new_: seq<Field>, layout: map<string, string>, j: nat)
    requires j < |new_|
  {
    GetById(old_, new_[j].id).Some? ==>
      new_[j].id in layout && layout[new_[j].id] == GetById(old_, new_[j].id).value.name
  }

  /** The first `upTo` new fields are placed; the kept ones after them still have their old columns. */
  ghost predicate Placed(old_: seq<Field>, new_: seq<Field>, suffix: nat -> string, pending: map<string, string>,
                         layout: map<string, string>, upTo: nat)
    requires upTo <= |new_|
  {
    && (forall id | id in layout :: exists j :: 0 <= j < |new_| && new_[j].id == id && (j < upTo || id in Ids(old_)))
    && (forall j | 0 <= j < upTo :: PlacedAt(old_, new_, suffix, pending, layout, j))
    && (forall j | upTo <= j < |new_| :: OldPlaceAt(old_, new_, layout, j))
  }

  /** Every pending temporary name belongs to a new field that moved, and stands for its name. */
  ghost predicate PendingOf(old_: seq<Field>, new_: seq<Field>, suffix: nat -> string, pending: map<string, string>) {
    forall tmp | tmp in pending ::
      exists j :: 0 <= j < |new_| && Moved(old_, new_[j]) && tmp == TempName(new_, suffix, j)
          && pending[tmp] == new_[j].name
  }

  lemma NameIsFree(db0: Database, db: Database, t: string, layout: map<string, string>, data: map<string, Data>,
                   n: string)
    requires Stage(db0, db, t, layout, data)
    requires forall id | id in layout :: Fold(layout[id]) != Fold(n)
    ensures Fold(n) !in db.tables[Fold(t)].columns
  {
  }

  lemma PlaceIsNotTemp(old_: seq<Field>, new_: seq<Field>, suffix: nat -> string, pending: map<string, string>, i: nat,
                       j: nat)
    requires i < |new_| && j < |new_| && i != j && FreshNames(old_, new_, suffix)
    ensures Fold(Place(old_, new_, suffix, pending, j)) != Fold(TempName(new_, suffix, i))
  {
    assert new_[j] in new_;
  }

  lemma PlaceIsNotName(old_: seq<Field>, new_: seq<Field>, suffix: nat -> string, pending: map<string, string>, i: nat,
                       j: nat)
    requires i < |new_| && j < |new_| && NoDuplicates(new_) && FreshNames(old_, new_, suffix)
    requires Moved(old_, new_[i]) && TempName(new_, suffix, i) in pending
    ensures Fold(Place(old_, new_, suffix, pending, j)) != Fold(new_[i].name)
  {
    assert new_[i] in new_;
    assert Fold(TempName(new_, suffix, j)) != Fold(new_[i].name);
    assert Clash(new_[i], new_[j]) ==> i == j;
  }

  lemma TempNameUnused(old_: seq<Field>, new_: seq<Field>, suffix: nat -> string, pending: map<string, string>,
                       layout: map<string, string>, i: nat)
    requires i < |new_| && FreshNames(old_, new_, suffix) && Placed(old_, new_, suffix, pending, layout, i)
    ensures forall id | id in layout :: Fold(layout[id]) != Fold(TempName(new_, suffix, i))
  {
    hide TempName, Place, Moved;
    forall id | id in layout ensures Fold(layout[id]) != Fold(TempName(new_, suffix, i)) {
      var j :| 0 <= j < |new_| && new_[j].id == id && (j < i || id in Ids(old_));
      if j < i {
        assert PlacedAt(old_, new_, suffix, pending, layout, j);
        PlaceIsNotTemp(old_, new_, suffix, pending, i, j);
      } else {
        assert OldPlaceAt(old_, new_, layout, j);
        var o := GetById(old_, id).value;
        assert o in old_ && layout[id] == o.name;
      }
    }
  }

  /** A final name is free as long as its own field still sits under a temporary name. */
  lemma FinalNameUnused(old_: seq<Field>, new_: seq<Field>, suffix: nat -> string, pending: map<string, string>,
                        layout: map<string, string>, i: nat)
    requires i < |new_| && NoDuplicates(new_) && FreshNames(old_, new_, suffix)
    requires Placed(old_, new_, suffix, pending, layout, |new_|)
    requires Moved(old_, new_[i]) && TempName(new_, suffix, i) in pending
    ensures forall id | id in layout :: Fold(layout[id]) != Fold(new_[i].name)
  {
    hide TempName, Place, Moved;
    forall id | id in layout ensures Fold(layout[id]) != Fold(new_[i].name) {
      var j :| 0 <= j < |new_| && new_[j].id == id;
      assert PlacedAt(old_, new_, suffix, pending, layout, j);
      PlaceIsNotName(old_, new_, suffix, pending, i, j);
    }
  }

  lemma SameId(fs: seq<Field>, i: nat, j: nat)
    requires NoDuplicates(fs) && i < |fs| && j < |fs|
    ensures fs[i].id == fs[j].id ==> i == j
  {
    assert fs[i].id == fs[j].id ==> Clash(fs[i], fs[j]);
  }

  lemma KeepPlaced(old_: seq<Field>, new_: seq<Field>, suffix: nat -> string, pending: map<string, string>,
                   layout: map<string, string>, i: nat)
    requires i < |new_| && Placed(old_, new_, suffix, pending, layout, i) && !Moved(old_, new_[i])
    ensures Placed(old_, new_, suffix, pending, layout, i + 1)
  {
    assert OldPlaceAt(old_, new_, layout, i);
    hide TempName;
    assert PlacedAt(old_, new_, suffix, pending, layout, i);
  }

  /** Adding or removing one temporary name moves only its own field's place. */
  lemma PlaceUnmoved(old_: seq<Field>, new_: seq<Field>, suffix: nat -> string, pending: map<string, string>,
                     pending': map<string, string>, i: nat, j: nat)
    requires i < |new_| && j < |new_| && i != j && FreshNames(old_, new_, suffix)
    requires || pending' == pending[TempName(new_, suffix, i) := new_[i].name]
             || pending' == pending - {TempName(new_, suffix, i)}
    ensures Place(old_, new_, suffix, pending', j) == Place(old_, new_, suffix, pending, j)
  {
    assert Fold(TempName(new_, suffix, i)) != Fold(TempName(new_, suffix, j));
    hide TempName, Moved;
  }

  lemma MovePlaced(old_: seq<Field>, new_: seq<Field>, suffix: nat -> string, pending: map<string, string>,
                   layout: map<string, string>, i: nat)
    requires i < |new_| && NoDuplicates(new_) && FreshNames(old_, new_, suffix) && Moved(old_, new_[i])
    requires Placed(old_, new_, suffix, pending, layout, i)
    ensures var tmp := TempName(new_, suffix, i);
            Placed(old_, new_, suffix, pending[tmp := new_[i].name], layout[new_[i].id := tmp], i + 1)
  {
    hide TempName, Moved, FreshNames, NoDuplicates;
    var tmp := TempName(new_, suffix, i);
    var pending', layout' := pending[tmp := new_[i].name], layout[new_[i].id := tmp];
    forall j | 0 <= j < i + 1 ensures PlacedAt(old_, new_, suffix, pending', layout', j) {
      if j < i {
        assert PlacedAt(old_, new_, suffix, pending, layout, j);
        PlaceUnmoved(old_, new_, suffix, pending, pending', i, j);
        SameId(new_, i, j);
      }
    }
    forall j | i + 1 <= j < |new_| ensures OldPlaceAt(old_, new_, layout', j) {
      assert OldPlaceAt(old_, new_, layout, j);
      SameId(new_, i, j);
    }
  }

  lemma MovePending(old_: seq<Field>, new_: seq<Field>, suffix: nat -> string, pending: map<string, string>, i: nat)
    requires i < |new_| && Moved(old_, new_[i]) && PendingOf(old_, new_, suffix, pending)
    ensures PendingOf(old_, new_, suffix, pending[TempName(new_, suffix, i) := new_[i].name])
  {
    hide TempName, Moved;
  }

  lemma SettlePlaced(old_: seq<Field>, new_: seq<Field>, suffix: nat -> string, pending: map<string, string>,
                     layout: map<string, string>, i: nat)
    requires i < |new_| && NoDuplicates(new_) && FreshNames(old_, new_, suffix)
    requires Placed(old_, new_, suffix, pending, layout, |new_|)
    ensures var tmp := TempName(new_, suffix, i);
            Placed(old_, new_, suffix, pending - {tmp}, layout[new_[i].id := new_[i].name], |new_|)
  {
    hide TempName, Moved, FreshNames, NoDuplicates;
    var tmp := TempName(new_, suffix, i);
    var pending', layout' := pending - {tmp}, layout[new_[i].id := new_[i].name];
    forall j | 0 <= j < |new_| ensures PlacedAt(old_, new_, suffix, pending', layout', j) {
      if j != i {
        assert PlacedAt(old_, new_, suffix, pending, layout, j);
        PlaceUnmoved(old_, new_, suffix, pending, pending', i, j);
        SameId(new_, i, j);
      }
    }
    forall id | id in layout'
      ensures exists j :: 0 <= j < |new_| && new_[j].id == id && (j < |new_| || id in Ids(old_))
    {
      if id in layout {
        var j :| 0 <= j < |new_| && new_[j].id == id;
      } else {
        assert new_[i].id == id;
      }
    }
  }

  /** The first `upTo` new fields own what they inherit; the kept ones always do. */
  ghost predicate Inherits(data0: map<string, Data>, data: map<string, Data>, new_: seq<Field>, size: nat, upTo: nat) {
    forall j | 0 <= j < |new_| && (j < upTo || new_[j].id in data0) ::
      new_[j].id in data && data[new_[j].id] == Inherited(data0, new_[j], size)
  }

  lemma AddInherits(data0: map<string, Data>, data: map<string, Data>, new_: seq<Field>, size: nat, i: nat)
    requires i < |new_| && NoDuplicates(new_) && new_[i].id !in data0 && Inherits(data0, data, new_, size, i)
    ensures Inherits(data0, data[new_[i].id := Fresh(new_[i].ColumnType(), size)], new_, size, i + 1)
  {
    forall j | 0 <= j < |new_| && (j < i + 1 || new_[j].id in data0) ensures j == i || new_[j].id != new_[i].id {
      SameId(new_, i, j);
    }
  }

  /** Adds the columns of the new fields and renames those of the renamed ones, all under
      temporary names, and returns the temporary names still to be settled. */
  method StageColumns(tx: SqlSession, t: string, old_: seq<Field>, new_: seq<Field>, suffix: nat -> string,
                      ghost good: bool, ghost db0: Database, ghost size: nat,
                      ghost layout0: map<string, string>, ghost data0: map<string, Data>)
    returns (ok: bool, toRename: map<string, string>, ghost layout: map<string, string>, ghost data: map<string, Data>)
    requires good ==> Stage(db0, tx.db, t, layout0, data0) && db0.tables[Fold(t)].size == size
    requires good ==> NoDuplicates(new_) && FreshNames(old_, new_, suffix)
    requires good ==> Placed(old_, new_, suffix, map[], layout0, 0) && data0.Keys == Ids(old_) * Ids(new_)
    requires good ==> forall f | f in new_ && f.id !in Ids(old_) :: !f.ColumnType().KeyColumn?
    modifies tx`db
    ensures good ==> ok && Stage(db0, tx.db, t, layout, data)
    ensures good ==> Placed(old_, new_, suffix, toRename, layout, |new_|) && PendingOf(old_, new_, suffix, toRename)
    ensures good ==> Inherits(data0, data, new_, size, |new_|)
    ensures (forall f | f in new_ :: !Moved(old_, f)) ==> ok && toRename == map[] && tx.db == old(tx.db)
  {
    hide Stage, Placed, PendingOf, FreshNames, Place, Inherits, NoDuplicates;
    toRename, layout, data := map[], layout0, data0;
    assert good ==> Inherits(data0, data, new_, size, 0) && PendingOf(old_, new_, suffix, map[]) by {
      StartInherits(data0, new_, size);
      StartPending(old_, new_, suffix);
    }
    for i := 0 to |new_|
      invariant good ==> Stage(db0, tx.db, t, layout, data)
      invariant good ==> Placed(old_, new_, suffix, toRename, layout, i) && PendingOf(old_, new_, suffix, toRename)
      invariant good ==> Inherits(data0, data, new_, size, i)
      invariant (forall f | f in new_ :: !Moved(old_, f)) ==> toRename == map[] && tx.db == old(tx.db)
    {
      assert new_[i] in new_;
      var f, tmp := new_[i], TempName(new_, suffix, i);
      var o := GetById(old_, f.id);
      if o.None? {
        if good {
          assert !f.ColumnType().KeyColumn?;
          StageAdd(db0, tx.db, t, layout, data, old_, new_, suffix, toRename, i);
          AddInherits(data0, data, new_, size, i);
          MovePending(old_, new_, suffix, toRename, i);
          layout, data := layout[f.id := tmp], data[f.id := Fresh(f.ColumnType(), size)];
        }
        toRename := toRename[tmp := f.name];
        ok := tx.AddColumn(t, tmp, f.ColumnType());
        if !ok { return; }
      } else if o.value.name != f.name {
        if good {
          StageMove(db0, tx.db, t, layout, data, old_, new_, suffix, toRename, i);
          MovePending(old_, new_, suffix, toRename, i);
          KeepInherits(data0, data, new_, size, i);
          layout := layout[f.id := tmp];
        }
        toRename := toRename[tmp := f.name];
        ok := tx.RenameColumn(t, o.value.name, tmp);
        if !ok { return; }
      } else if good {
        KeepPlaced(old_, new_, suffix, toRename, layout, i);
        KeepInherits(data0, data, new_, size, i);
      }
    }
    ok := true;
  }

  lemma StartInherits(data0: map<string, Data>, new_: seq<Field>, size: nat)
    ensures Inherits(data0, data0, new_, size, 0)
  {
  }

  lemma KeepInherits(data0: map<string, Data>, data: map<string, Data>, new_: seq<Field>, size: nat, i: nat)
    requires i < |new_| && new_[i].id in data0 && Inherits(data0, data, new_, size, i)
    ensures Inherits(data0, data, new_, size, i + 1)
  {
  }

  lemma StartPending(old_: seq<Field>, new_: seq<Field>, suffix: nat -> string)
    ensures PendingOf(old_, new_, suffix, map[])
  {
  }

  lemma StageAdd(db0: Database, db: Database, t: string, layout: map<string, string>, data: map<string, Data>,
                 old_: seq<Field>, new_: seq<Field>, suffix: nat -> string, pending: map<string, string>, i: nat)
    requires i < |new_| && NoDuplicates(new_) && FreshNames(old_, new_, suffix)
    requires Stage(db0, db, t, layout, data) && Placed(old_, new_, suffix, pending, layout, i)
    requires GetById(old_, new_[i].id).None? && !new_[i].ColumnType().KeyColumn?
    ensures var f, tmp := new_[i], TempName(new_, suffix, i);
            && db.CanAddColumn(t, tmp, f.ColumnType())
            && Stage(db0, db.AddedColumn(t, tmp, f.ColumnType()), t, layout[f.id := tmp],
                     data[f.id := Fresh(f.ColumnType(), db0.tables[Fold(t)].size)])
            && Placed(old_, new_, suffix, pending[tmp := f.name], layout[f.id := tmp], i + 1)
  {
    hide TempName, Stage, FreshNames, NoDuplicates;
    var f, tmp := new_[i], TempName(new_, suffix, i);
    assert f.id !in layout by {
      if f.id in layout {
        var j :| 0 <= j < |new_| && new_[j].id == f.id && j < i;
        SameId(new_, i, j);
        assert false;
      }
    }
    hide Placed;
    TempNameUnused(old_, new_, suffix, pending, layout, i);
    NameIsFree(db0, db, t, layout, data, tmp);
    AddStage(db0, db, t, layout, data, f.id, tmp, f.ColumnType());
    MovePlaced(old_, new_, suffix, pending, layout, i);
  }

  lemma StageMove(db0: Database, db: Database, t: string, layout: map<string, string>, data: map<string, Data>,
                  old_: seq<Field>, new_: seq<Field>, suffix: nat -> string, pending: map<string, string>, i: nat)
    requires i < |new_| && NoDuplicates(new_) && FreshNames(old_, new_, suffix) && Moved(old_, new_[i])
    requires Stage(db0, db, t, layout, data) && Placed(old_, new_, suffix, pending, layout, i)
    requires GetById(old_, new_[i].id).Some?
    ensures var f, tmp, from := new_[i], TempName(new_, suffix, i), GetById(old_, new_[i].id).value.name;
            && db.CanRenameColumn(t, from, tmp)
            && Stage(db0, db.RenamedColumn(t, from, tmp), t, layout[f.id := tmp], data)
            && Placed(old_, new_, suffix, pending[tmp := f.name], layout[f.id := tmp], i + 1)
  {
    assert OldPlaceAt(old_, new_, layout, i);
    hide TempName, Stage, FreshNames, NoDuplicates, Placed;
    TempNameUnused(old_, new_, suffix, pending, layout, i);
    NameIsFree(db0, db, t, layout, data, TempName(new_, suffix, i));
    RenameStage(db0, db, t, layout, data, new_[i].id, TempName(new_, suffix, i));
    MovePlaced(old_, new_, suffix, pending, layout, i);
  }

  lemma SettleStage(db0: Database, db: Database, t: string, layout: map<string, string>, data: map<string, Data>,
                    old_: seq<Field>, new_: seq<Field>, suffix: nat -> string, pending: map<string, string>,
                    tmp: string)
    returns (i: nat)
    requires NoDuplicates(new_) && FreshNames(old_, new_, suffix)
    requires Stage(db0, db, t, layout, data) && Placed(old_, new_, suffix, pending, layout, |new_|)
    requires PendingOf(old_, new_, suffix, pending) && tmp in pending
    ensures i < |new_| && pending[tmp] == new_[i].name
    ensures db.CanRenameColumn(t, tmp, new_[i].name)
    ensures Stage(db0, db.RenamedColumn(t, tmp, new_[i].name), t, layout[new_[i].id := new_[i].name], data)
    ensures Placed(old_, new_, suffix, pending - {tmp}, layout[new_[i].id := new_[i].name], |new_|)
    ensures PendingOf(old_, new_, suffix, pending - {tmp})
  {
    hide TempName, Stage, FreshNames, NoDuplicates, Moved;
    var j :| 0 <= j < |new_| && Moved(old_, new_[j]) && tmp == TempName(new_, suffix, j)
        && pending[tmp] == new_[j].name;
    i := j;
    assert PlacedAt(old_, new_, suffix, pending, layout, i);
    hide Placed;
    FinalNameUnused(old_, new_, suffix, pending, layout, i);
    NameIsFree(db0, db, t, layout, data, new_[i].name);
    RenameStage(db0, db, t, layout, data, new_[i].id, new_[i].name);
    SettlePlaced(old_, new_, suffix, pending, layout, i);
  }

  /** Renames every temporary column to its final name, in any order. */
  method SettleNames(tx: SqlSession, t: string, toRename: map<string, string>,
                     ghost good: bool, ghost db0: Database, ghost layout0: map<string, string>,
                     ghost data: map<string, Data>,
                     ghost old_: seq<Field>, ghost new_: seq<Field>, ghost suffix: nat -> string)
    returns (ok: bool, ghost layout: map<string, string>)
    requires good ==> NoDuplicates(new_) && FreshNames(old_, new_, suffix)
    requires good ==> Stage(db0, tx.db, t, layout0, data) && Placed(old_, new_, suffix, toRename, layout0, |new_|)
    requires good ==> PendingOf(old_, new_, suffix, toRename)
    modifies tx`db
    ensures good ==> ok && Stage(db0, tx.db, t, layout, data) && Placed(old_, new_, suffix, map[], layout, |new_|)
    ensures toRename == map[] ==> ok && tx.db == old(tx.db)
  {
    hide Stage, Placed, PendingOf, FreshNames, NoDuplicates;
    var pending := toRename;
    layout := layout0;
    while pending.Keys != {}
      invariant good ==> Stage(db0, tx.db, t, layout, data) && Placed(old_, new_, suffix, pending, layout, |new_|)
      invariant good ==> PendingOf(old_, new_, suffix, pending)
      invariant toRename == map[] ==> pending == map[] && tx.db == old(tx.db)
      decreases |pending|
    {
      var tmp :| tmp in pending;
      var name := pending[tmp];
      if good {
        ghost var i := SettleStage(db0, tx.db, t, layout, data, old_, new_, suffix, pending, tmp);
        layout := layout[new_[i].id := name];
      }
      ok := tx.RenameColumn(t, tmp, name);
      if !ok { return; }
      pending := pending - {tmp};
    }
    assert pending == map[];
    ok := true;
  }

  // ---- single and multiple ------------------------------------------------------------------------

  /** View names are folded and clash with no table or index. */
  ghost predicate ViewsApart(db: Database) {
    forall v | v in db.views :: Fold(v) == v && v !in db.tables && v !in db.indexes
  }

  ghost predicate CanRewrite(db: Database, t: string, name: string, tmp: string, ctype: ColumnType) {
    && Fold(t) in db.tables && db.NoIndexOn(t)
    && Fold(name) in db.tables[Fold(t)].columns && Fold(tmp) !in db.tables[Fold(t)].columns
    && !ctype.KeyColumn? && !db.tables[Fold(t)].columns[Fold(name)].ctype.KeyColumn?
  }

  /** The column map after the rename, after the ADD COLUMN, after the UPDATE, after the DROP COLUMN. */
  function RewriteSteps(cols: map<string, Column>, size: nat, name: string, tmp: string, ctype: ColumnType,
                        convert: Cell -> Cell)
    : (map<string, Column>, map<string, Column>, map<string, Column>, map<string, Column>)
    requires Fold(name) in cols
  {
    var c1 := (cols - {Fold(name)})[Fold(tmp) := cols[Fold(name)].(name := tmp)];
    var c2 := c1[Fold(name) := Column(name, ctype, seq(size, _ => ctype.Default()))];
    var c3 := c2[Fold(name) := Column(name, ctype, Mapped(cols[Fold(name)].cells, convert))];
    (c1, c2, c3, c3 - {Fold(tmp)})
  }

  lemma RewriteAdd(db: Database, t: string, c: map<string, Column>, name: string, ctype: ColumnType)
    requires Fold(t) in db.tables && Fold(name) !in c && !ctype.KeyColumn?
    ensures var d := db.WithColumns(t, c);
            && d.CanAddColumn(t, name, ctype)
            && d.AddedColumn(t, name, ctype) ==
               db.WithColumns(
                 t, c[Fold(name) := Column(name, ctype, seq(db.tables[Fold(t)].size, _ => ctype.Default()))])
  {
  }

  lemma RewriteCopy(db: Database, t: string, c: map<string, Column>, target: string, source: string,
                    convert: Cell -> Cell)
    requires Fold(t) in db.tables && Fold(target) in c && Fold(source) in c
    ensures var d := db.WithColumns(t, c);
            && d.CanCopyColumn(t, target, source)
            && d.CopiedColumn(t, target, source, convert) ==
               db.WithColumns(t, c[Fold(target) := c[Fold(target)].(cells := Mapped(c[Fold(source)].cells, convert))])
  {
  }

  lemma RewriteDrop(db: Database, t: string, c: map<string, Column>, tmp: string, other: string)
    requires Fold(t) in db.tables && db.NoIndexOn(t)
    requires Fold(tmp) in c && Fold(other) in c && Fold(tmp) != Fold(other) && !c[Fold(tmp)].ctype.KeyColumn?
    ensures var d := db.WithColumns(t, c);
            && d.CanDropColumn(t, tmp)
            && d.DroppedColumn(t, tmp) == db.WithColumns(t, c - {Fold(tmp)})
  {
    SubsetSize({Fold(other), Fold(tmp)}, c.Keys);
  }

  lemma RewriteChain(db: Database, t: string, name: string, tmp: string, ctype: ColumnType, convert: Cell -> Cell)
    requires CanRewrite(db, t, name, tmp, ctype)
    ensures var c := RewriteSteps(db.tables[Fold(t)].columns, db.tables[Fold(t)].size, name, tmp, ctype, convert);
            var d1, d2 := db.WithColumns(t, c.0), db.WithColumns(t, c.1);
            var d3, d4 := db.WithColumns(t, c.2), db.WithColumns(t, c.3);
            && db.CanRenameColumn(t, name, tmp) && db.RenamedColumn(t, name, tmp) == d1
            && d1.CanAddColumn(t, name, ctype) && d1.AddedColumn(t, name, ctype) == d2
            && d2.CanCopyColumn(t, name, tmp) && d2.CopiedColumn(t, name, tmp, convert) == d3
            && d3.CanDropColumn(t, tmp) && d3.DroppedColumn(t, tmp) == d4
            && d4 == Rewritten(db, t, name, ctype, convert)
  {
    var cols := db.tables[Fold(t)].columns;
    var c := RewriteSteps(cols, db.tables[Fold(t)].size, name, tmp, ctype, convert);
    RenameEffect(db, t, name, tmp);
    hide db.WithColumns, db.RenamedColumn, db.AddedColumn, db.CopiedColumn, db.DroppedColumn,
         db.CanAddColumn, db.CanCopyColumn, db.CanDropColumn;
    RewriteAdd(db, t, c.0, name, ctype);
    RewriteCopy(db, t, c.1, name, tmp, convert);
    RewriteDrop(db, t, c.2, tmp, name);
    assert c.3 == cols[Fold(name) := Column(name, ctype, Mapped(cols[Fold(name)].cells, convert))];
  }

  /** Replaces a column by one of a new type holding its converted cells, with every view
      dropped meanwhile and restored at the end. */
  method RewriteColumn(tx: SqlSession, t: string, name: string, tmp: string, ctype: ColumnType, convert: Cell -> Cell)
    returns (ok: bool)
    modifies tx`db
    ensures CanRewrite(old(tx.db), t, name, tmp, ctype) && ViewsApart(old(tx.db))
            ==> ok && tx.db == Rewritten(old(tx.db), t, name, ctype, convert)
  {
    ghost var good := CanRewrite(tx.db, t, name, tmp, ctype) && ViewsApart(tx.db);
    var views := tx.db.views;
    DropViews(tx);
    ghost var bare := tx.db;
    if good { RewriteChain(bare, t, name, tmp, ctype, convert); }
    hide CanRewrite, RewriteSteps, Rewritten;
    ok := tx.RenameColumn(t, name, tmp);
    if !ok { return; }
    ok := tx.AddColumn(t, name, ctype);
    if !ok { return; }
    ok := tx.CopyColumn(t, name, tmp, convert);
    if !ok { return; }
    ok := tx.DropColumn(t, tmp);
    if !ok { return; }
    assert good ==> tx.db == Rewritten(bare, t, name, ctype, convert);
    if good { RestoredViews(old(tx.db), t, name, ctype, convert); }
    ok := RestoreViews(tx, views);
  }

  lemma RestoredViews(db: Database, t: string, name: string, ctype: ColumnType, convert: Cell -> Cell)
    requires Fold(t) in db.tables && Fold(name) in db.tables[Fold(t)].columns && ViewsApart(db)
    ensures var after := Rewritten(db.(views := map[]), t, name, ctype, convert);
            && after.views == map[]
            && ViewsApart(after.(views := db.views))
            && after.(views := db.views) == Rewritten(db, t, name, ctype, convert)
  {
  }

  function Rewritten(db: Database, t: string, name: string, ctype: ColumnType, convert: Cell -> Cell): Database
    requires Fold(t) in db.tables && Fold(name) in db.tables[Fold(t)].columns
  {
    var cols := db.tables[Fold(t)].columns;
    db.WithColumns(t, cols[Fold(name) := Column(name, ctype, Mapped(cols[Fold(name)].cells, convert))])
  }

  method DropViews(tx: SqlSession)
    modifies tx`db
    ensures ViewsApart(old(tx.db)) ==> tx.db == old(tx.db).(views := map[])
  {
    ghost var good := ViewsApart(tx.db);
    var names := tx.db.views.Keys;
    while names != {}
      invariant good ==> tx.db == old(tx.db).(views := tx.db.views)
      invariant good ==> forall v | v in tx.db.views :: v in names
      invariant good ==> forall v | v in names :: Fold(v) == v
    {
      var v :| v in names;
      tx.DropView(v);
      names := names - {v};
    }
    assert good ==> tx.db.views == map[];
  }

  method RestoreViews(tx: SqlSession, views: map<string, string>) returns (ok: bool)
    modifies tx`db
    ensures old(tx.db).views == map[] && ViewsApart(old(tx.db).(views := views)) ==>
              ok && tx.db == old(tx.db).(views := views)
  {
    ghost var good := tx.db.views == map[] && ViewsApart(tx.db.(views := views));
    var left := views;
    while left.Keys != {}
      invariant forall v | v in left :: v in views && left[v] == views[v]
      invariant good ==> tx.db == old(tx.db).(views := tx.db.views)
      invariant good ==> forall v :: v in tx.db.views <==> v in views && v !in left
      invariant good ==> forall v | v in tx.db.views :: tx.db.views[v] == views[v]
      decreases |left|
    {
      var v :| v in left;
      if good { assert v in tx.db.(views := views).views; }
      ok := tx.CreateView(v, left[v]);
      if !ok { return; }
      left := left - {v};
    }
    assert good ==> tx.db.views == views;
    ok := true;
  }

  /** The conversion a field's column needs, if its multiplicity changed. */
  predicate MultiplicityChanged(old_: seq<Field>, f: Field) {
    var o := GetById(old_, f.id);
    (o.Some? && o.value.IsMultiple()) != f.IsMultiple()
  }

  function Normalized(old_: seq<Field>, f: Field, d: Data): Data {
    if !MultiplicityChanged(old_, f) then d
    else Data(f.ColumnType(), Mapped(d.cells, if f.IsMultiple() then ToMultiple else ToSingle))
  }

  /** The layout of a settled table: every field in the column of its own name. */
  ghost predicate Settled(fs: seq<Field>, layout: map<string, string>) {
    layout.Keys == Ids(fs) && forall j | 0 <= j < |fs| :: fs[j].id in layout && layout[fs[j].id] == fs[j].name
  }

  ghost predicate FreshAmong(fs: seq<Field>, suffix: nat -> string) {
    forall j, f | 0 <= j < |fs| && f in fs :: Fold("_" + TempName(fs, suffix, j)) != Fold(f.name)
  }

  lemma RewriteStage(db0: Database, db: Database, t: string, layout: map<string, string>, data: map<string, Data>,
                     id: string, tmp: string, ctype: ColumnType, convert: Cell -> Cell)
    requires Stage(db0, db, t, layout, data) && id in layout && ViewsApart(db0)
    requires forall a | a in layout :: Fold(layout[a]) != Fold(tmp)
    requires !ctype.KeyColumn? && !data[id].ctype.KeyColumn?
    ensures CanRewrite(db, t, layout[id], tmp, ctype) && ViewsApart(db)
    ensures Stage(db0, Rewritten(db, t, layout[id], ctype, convert), t, layout,
                  data[id := Data(ctype, Mapped(data[id].cells, convert))])
  {
    var cols, name := db.tables[Fold(t)].columns, layout[id];
    assert Places(cols, layout, data, id);
    NameIsFree(db0, db, t, layout, data, tmp);
    var cols' := cols[Fold(name) := Column(name, ctype, Mapped(data[id].cells, convert))];
    var data' := data[id := Data(ctype, Mapped(data[id].cells, convert))];
    assert Owned(cols', layout, data') by {
      forall a | a in layout ensures Places(cols', layout, data', a) {
        assert Places(cols, layout, data, a) && Apart(layout, a, id);
      }
    }
    RestageColumns(db0, db, t, layout, data, cols', layout, data');
  }

  /** The first `upTo` new fields own their converted data, the others still what they had. */
  ghost predicate NormalizedUpTo(old_: seq<Field>, new_: seq<Field>, data0: map<string, Data>,
                                 data: map<string, Data>, upTo: nat) {
    forall j | 0 <= j < |new_| ::
      && new_[j].id in data && new_[j].id in data0
      && data[new_[j].id] == if j < upTo then Normalized(old_, new_[j], data0[new_[j].id]) else data0[new_[j].id]
  }

  lemma NormalizeMore(old_: seq<Field>, new_: seq<Field>, data0: map<string, Data>, data: map<string, Data>, i: nat)
    requires i < |new_| && NoDuplicates(new_) && NormalizedUpTo(old_, new_, data0, data, i)
    ensures new_[i].id in data && new_[i].id in data0 && data[new_[i].id] == data0[new_[i].id]
    ensures NormalizedUpTo(old_, new_, data0, data[new_[i].id := Normalized(old_, new_[i], data0[new_[i].id])], i + 1)
  {
    hide Normalized, NoDuplicates;
    var data' := data[new_[i].id := Normalized(old_, new_[i], data0[new_[i].id])];
    forall j | 0 <= j < |new_|
      ensures && new_[j].id in data' && new_[j].id in data0
              && data'[new_[j].id] ==
                 if j < i + 1 then Normalized(old_, new_[j], data0[new_[j].id]) else data0[new_[j].id]
    {
      SameId(new_, i, j);
    }
  }

  lemma NormalizedIs(old_: seq<Field>, f: Field, d: Data, data: map<string, Data>)
    requires f.id in data && data[f.id] == d
    ensures !MultiplicityChanged(old_, f) ==> data[f.id := Normalized(old_, f, d)] == data
    ensures MultiplicityChanged(old_, f) ==>
              Normalized(old_, f, d) == Data(f.ColumnType(),
                                             Mapped(d.cells, if f.IsMultiple() then ToMultiple else ToSingle))
  {
  }

  lemma OnlyOwn(new_: seq<Field>, layout: map<string, string>, tmp: string, i: nat, suffix: nat -> string)
    requires i < |new_| && Settled(new_, layout) && FreshAmong(new_, suffix) && tmp == "_" + TempName(new_, suffix, i)
    ensures new_[i].id in layout && layout[new_[i].id] == new_[i].name
    ensures forall a | a in layout :: Fold(layout[a]) != Fold(tmp)
  {
    forall a | a in layout ensures Fold(layout[a]) != Fold(tmp) {
      var j :| 0 <= j < |new_| && new_[j].id == a;
      assert new_[j] in new_;
    }
  }

  /** Converts the columns whose multiplicity changed, and only those. */
  method NormalizeSingleVsMultiple(tx: SqlSession, t: string, old_: seq<Field>, new_: seq<Field>, suffix: nat -> string,
                                   ghost good: bool, ghost db0: Database,
                                   ghost layout: map<string, string>, ghost data0: map<string, Data>)
    returns (ok: bool, ghost data: map<string, Data>)
    requires good ==> NoDuplicates(new_) && FreshAmong(new_, suffix) && ViewsApart(db0)
    requires good ==> Stage(db0, tx.db, t, layout, data0) && Settled(new_, layout)
    requires good ==> NormalizedUpTo(old_, new_, data0, data0, 0)
    requires good ==> forall f | f in new_ && MultiplicityChanged(old_, f) ::
               f.id in data0 && !data0[f.id].ctype.KeyColumn? && !f.ColumnType().KeyColumn?
    modifies tx`db
    ensures good ==> ok && Stage(db0, tx.db, t, layout, data) && NormalizedUpTo(old_, new_, data0, data, |new_|)
    ensures (forall f | f in new_ :: !MultiplicityChanged(old_, f)) ==> ok && tx.db == old(tx.db)
  {
    hide Stage, ViewsApart, Normalized, Mapped, NormalizedUpTo, Settled, FreshAmong, NoDuplicates, MultiplicityChanged,
         TempName, CanRewrite, Rewritten;
    data := data0;
    for i := 0 to |new_|
      invariant good ==> Stage(db0, tx.db, t, layout, data)
      invariant good ==> NormalizedUpTo(old_, new_, data0, data, i)
      invariant (forall f | f in new_ :: !MultiplicityChanged(old_, f)) ==> tx.db == old(tx.db)
    {
      var f, tmp := new_[i], "_" + TempName(new_, suffix, i);
      assert f in new_;
      ghost var now := data;
      if good {
        NormalizeMore(old_, new_, data0, data, i);
        NormalizedIs(old_, f, data0[f.id], data);
        data := data[f.id := Normalized(old_, f, data0[f.id])];
      }
      if MultiplicityChanged(old_, f) {
        var convert := if f.IsMultiple() then ToMultiple else ToSingle;
        if good {
          OnlyOwn(new_, layout, tmp, i, suffix);
          RewriteStage(db0, tx.db, t, layout, now, f.id, tmp, f.ColumnType(), convert);
        }
        ok := RewriteColumn(tx, t, f.name, tmp, f.ColumnType(), convert);
        if !ok { return; }
      }
    }
    ok := true;
  }
}
