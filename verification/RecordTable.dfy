/** A record table and the SQLite statements that change it. Each statement is a partial step:
    `Can...` is the condition under which SQLite accepts it, and the function beside it is its effect. */
module RecordTable {
  import opened Names
  import opened RecordCells

  datatype ColumnType = TextColumn | KeyColumn | NumericColumn | BooleanColumn | JsonColumn | JsonArrayColumn {
    /** The DEFAULT of the column definition, which fills the existing rows of an added column. */
    function Default(): Cell {
      match this
      case NumericColumn => Value(Plain("0"))
      case BooleanColumn => Value(Plain("0"))
      case JsonColumn => Null
      case JsonArrayColumn => EMPTY_ARRAY
      case _ => EMPTY_TEXT
    }
  }

  datatype Column = Column(name: string, ctype: ColumnType, cells: seq<Cell>)

  /** Columns are keyed by their folded name. */
  datatype Table = Table(columns: map<string, Column>, size: nat)

  datatype Index = Index(table: string, columns: set<string>)

  /** One CREATE INDEX expression of a collection, already parsed. `shape` is the expression
      without the names of index and table, `core` also without its condition, collations and
      sort orders. */
  datatype IndexDef = IndexDef(name: string, columns: seq<string>, optional: bool, valid: bool,
                               unique: bool, shape: string, core: string) {
    ghost function ColumnKeys(): set<string> {
      set c | c in columns :: Fold(c)
    }
  }

  /** Tables, indexes and views are keyed by their folded names, which share one namespace. */
  datatype Database = Database(tables: map<string, Table>, indexes: map<string, Index>, views: map<string, string>) {

    predicate Taken(name: string) {
      Fold(name) in tables || Fold(name) in indexes || Fold(name) in views
    }

    function WithColumns(t: string, columns: map<string, Column>): Database
      requires Fold(t) in tables
    {
      this.(tables := tables[Fold(t) := tables[Fold(t)].(columns := columns)])
    }

    ghost predicate CanRenameTable(a: string, b: string) {
      Fold(a) in tables && !Taken(b)
    }

    function RenamedTable(a: string, b: string): Database
      requires Fold(a) in tables
    {
      this.(tables := (tables - {Fold(a)})[Fold(b) := tables[Fold(a)]],
            indexes := map n | n in indexes ::
              if indexes[n].table == Fold(a) then indexes[n].(table := Fold(b)) else indexes[n])
    }

    ghost predicate CanRenameColumn(t: string, a: string, b: string) {
      && Fold(t) in tables
      && Fold(a) in tables[Fold(t)].columns
      && Fold(b) !in tables[Fold(t)].columns
    }

    function RenamedColumn(t: string, a: string, b: string): Database
      requires Fold(t) in tables && Fold(a) in tables[Fold(t)].columns
    {
      var cols := tables[Fold(t)].columns;
      WithColumns(t, (cols - {Fold(a)})[Fold(b) := cols[Fold(a)].(name := b)])
      .(indexes := map n | n in indexes ::
          if indexes[n].table == Fold(t) && Fold(a) in indexes[n].columns
          then indexes[n].(columns := indexes[n].columns - {Fold(a)} + {Fold(b)}) else indexes[n])
    }

    ghost predicate CanAddColumn(t: string, n: string, ctype: ColumnType) {
      Fold(t) in tables && Fold(n) !in tables[Fold(t)].columns && !ctype.KeyColumn?
    }

    function AddedColumn(t: string, n: string, ctype: ColumnType): Database
      requires Fold(t) in tables
    {
      var tbl := tables[Fold(t)];
      WithColumns(t, tbl.columns[Fold(n) := Column(n, ctype, seq(tbl.size, _ => ctype.Default()))])
    }

    /** SQLite refuses to drop a primary key, an indexed column or the only column. */
    ghost predicate CanDropColumn(t: string, n: string) {
      && Fold(t) in tables
      && Fold(n) in tables[Fold(t)].columns
      && !tables[Fold(t)].columns[Fold(n)].ctype.KeyColumn?
      && |tables[Fold(t)].columns| > 1
      && forall i | i in indexes && indexes[i].table == Fold(t) :: Fold(n) !in indexes[i].columns
    }

    function DroppedColumn(t: string, n: string): Database
      requires Fold(t) in tables
    {
      WithColumns(t, tables[Fold(t)].columns - {Fold(n)})
    }

    ghost predicate CanCopyColumn(t: string, target: string, source: string) {
      && Fold(t) in tables
      && Fold(target) in tables[Fold(t)].columns
      && Fold(source) in tables[Fold(t)].columns
    }

    /** UPDATE t SET target = convert(source), for every row. */
    function CopiedColumn(t: string, target: string, source: string, convert: Cell -> Cell): Database
      requires CanCopyColumn(t, target, source)
    {
      var cols := tables[Fold(t)].columns;
      WithColumns(t, cols[Fold(target) := cols[Fold(target)].(cells := Mapped(cols[Fold(source)].cells, convert))])
    }

    /** Every column exists, the name is free, and the rows satisfy the index (`admits`). */
    ghost predicate CanCreateIndex(t: string, def: IndexDef, admits: (Table, IndexDef) -> bool) {
      && Fold(t) in tables
      && ((def.optional && Fold(def.name) in indexes)
          || (!Taken(def.name) && def.ColumnKeys() <= tables[Fold(t)].columns.Keys && admits(tables[Fold(t)], def)))
    }

    function CreatedIndex(t: string, def: IndexDef): Database {
      if Fold(def.name) in indexes then this
      else this.(indexes := indexes[Fold(def.name) := Index(Fold(t), set c | c in def.columns :: Fold(c))])
    }

    ghost predicate NoIndexOn(t: string) {
      forall n | n in indexes :: indexes[n].table != Fold(t)
    }

    /** Every index names only columns its table has; every accepted statement keeps this. */
    ghost predicate IndexesSound() {
      forall n | n in indexes ::
        && indexes[n].table in tables
        && indexes[n].columns <= tables[indexes[n].table].columns.Keys
    }
  }

  ghost predicate IsEmptyTable(tbl: Table, definitions: map<string, ColumnType>) {
    && tbl.size == 0
    && (forall n | n in definitions :: Fold(n) in tbl.columns && tbl.columns[Fold(n)] == Column(n, definitions[n], []))
    && (forall k | k in tbl.columns :: exists n :: n in definitions && Fold(n) == k)
  }

  function Mapped(cells: seq<Cell>, convert: Cell -> Cell): (r: seq<Cell>)
    ensures |r| == |cells|
    ensures forall i :: 0 <= i < |cells| ==> r[i] == convert(cells[i])
  {
    seq(|cells|, i requires 0 <= i < |cells| => convert(cells[i]))
  }

  /** The database as one transaction sees it: the statements the sync code executes. Every
      statement reports whether SQLite accepted it, and changes nothing when it did not. */
  class SqlSession {
    var db: Database

    method RenameTable(a: string, b: string) returns (ok: bool)
      modifies this`db
      ensures old(db).IndexesSound() ==> db.IndexesSound()
      ensures ok <==> old(db).CanRenameTable(a, b)
      ensures db == if ok then old(db).RenamedTable(a, b) else old(db)
    {
      ok := Fold(a) in db.tables && !db.Taken(b);
      if ok { db := db.RenamedTable(a, b); }
    }

    /** CREATE TABLE with the given column definitions. */
    method CreateTable(t: string, definitions: map<string, ColumnType>) returns (ok: bool)
      modifies this`db
      ensures old(db).IndexesSound() ==> db.IndexesSound()
      ensures ok <==> !old(db).Taken(t) && definitions != map[]
                      && forall a, b | a in definitions && b in definitions && Fold(a) == Fold(b) :: a == b
      ensures !ok ==> db == old(db)
      ensures ok ==> Fold(t) in db.tables && db == old(db).(tables := old(db).tables[Fold(t) := db.tables[Fold(t)]])
      ensures ok ==> IsEmptyTable(db.tables[Fold(t)], definitions)
    {
      if db.Taken(t) || definitions == map[] { return false; }
      var columns, left := map[], definitions.Keys;
      while left != {}
        invariant left <= definitions.Keys
        invariant forall n | n in definitions && n !in left ::
                    Fold(n) in columns && columns[Fold(n)] == Column(n, definitions[n], [])
        invariant forall k | k in columns :: exists n :: n in definitions && n !in left && Fold(n) == k
        invariant forall a, b | a in definitions - left && b in definitions - left && Fold(a) == Fold(b) :: a == b
      {
        var n :| n in left;
        if Fold(n) in columns { return false; }
        columns := columns[Fold(n) := Column(n, definitions[n], [])];
        left := left - {n};
      }
      db := db.(tables := db.tables[Fold(t) := Table(columns, 0)]);
      ok := true;
    }

    method RenameColumn(t: string, a: string, b: string) returns (ok: bool)
      modifies this`db
      ensures old(db).IndexesSound() ==> db.IndexesSound()
      ensures ok <==> old(db).CanRenameColumn(t, a, b)
      ensures db == if ok then old(db).RenamedColumn(t, a, b) else old(db)
    {
      ok := Fold(t) in db.tables && Fold(a) in db.tables[Fold(t)].columns && Fold(b) !in db.tables[Fold(t)].columns;
      if ok { db := db.RenamedColumn(t, a, b); }
    }

    method AddColumn(t: string, n: string, ctype: ColumnType) returns (ok: bool)
      modifies this`db
      ensures old(db).IndexesSound() ==> db.IndexesSound()
      ensures ok <==> old(db).CanAddColumn(t, n, ctype)
      ensures db == if ok then old(db).AddedColumn(t, n, ctype) else old(db)
    {
      ok := Fold(t) in db.tables && Fold(n) !in db.tables[Fold(t)].columns && !ctype.KeyColumn?;
      if ok { db := db.AddedColumn(t, n, ctype); }
    }

    method DropColumn(t: string, n: string) returns (ok: bool)
      modifies this`db
      ensures old(db).IndexesSound() ==> db.IndexesSound()
      ensures ok <==> old(db).CanDropColumn(t, n)
      ensures db == if ok then old(db).DroppedColumn(t, n) else old(db)
    {
      ok := && Fold(t) in db.tables
            && Fold(n) in db.tables[Fold(t)].columns
            && !db.tables[Fold(t)].columns[Fold(n)].ctype.KeyColumn?
            && |db.tables[Fold(t)].columns| > 1
            && forall i | i in db.indexes && db.indexes[i].table == Fold(t) :: Fold(n) !in db.indexes[i].columns;
      if ok { db := db.DroppedColumn(t, n); }
    }

    method CopyColumn(t: string, target: string, source: string, convert: Cell -> Cell) returns (ok: bool)
      modifies this`db
      ensures old(db).IndexesSound() ==> db.IndexesSound()
      ensures ok <==> old(db).CanCopyColumn(t, target, source)
      ensures db == if ok then old(db).CopiedColumn(t, target, source, convert) else old(db)
    {
      ok := && Fold(t) in db.tables
            && Fold(target) in db.tables[Fold(t)].columns
            && Fold(source) in db.tables[Fold(t)].columns;
      if ok { db := db.CopiedColumn(t, target, source, convert); }
    }

    /** DROP INDEX IF EXISTS. */
    method DropIndex(n: string)
      modifies this`db
      ensures old(db).IndexesSound() ==> db.IndexesSound()
      ensures db == old(db).(indexes := old(db).indexes - {Fold(n)})
    {
      db := db.(indexes := db.indexes - {Fold(n)});
    }

    method CreateIndex(t: string, def: IndexDef, admits: (Table, IndexDef) -> bool) returns (ok: bool)
      modifies this`db
      ensures old(db).IndexesSound() ==> db.IndexesSound()
      ensures ok <==> old(db).CanCreateIndex(t, def, admits)
      ensures db == if ok then old(db).CreatedIndex(t, def) else old(db)
    {
      ok := && Fold(t) in db.tables
            && ((def.optional && Fold(def.name) in db.indexes)
                || (!db.Taken(def.name) && (forall c | c in def.columns :: Fold(c) in db.tables[Fold(t)].columns)
                    && admits(db.tables[Fold(t)], def)));
      if ok { db := db.CreatedIndex(t, def); }
    }

    /** DROP VIEW IF EXISTS. */
    method DropView(n: string)
      modifies this`db
      ensures old(db).IndexesSound() ==> db.IndexesSound()
      ensures db == old(db).(views := old(db).views - {Fold(n)})
    {
      db := db.(views := db.views - {Fold(n)});
    }

    method CreateView(n: string, sql: string) returns (ok: bool)
      modifies this`db
      ensures old(db).IndexesSound() ==> db.IndexesSound()
      ensures ok <==> !old(db).Taken(n)
      ensures db == if ok then old(db).(views := old(db).views[Fold(n) := sql]) else old(db)
    {
      ok := !db.Taken(n);
      if ok { db := db.(views := db.views[Fold(n) := sql]); }
    }
  }
}
