/** Collection fields and the validator checks that run before a schema is persisted
    (core/collection_validate.go). */
module CollectionSchema {
  import opened Wrappers
  import opened Names
  import opened RecordCells
  import opened RecordTable

  /** `settings` stands for every field option that does not affect the column. */
  datatype Kind = Text | Number | Bool | Json | Select | File | Relation | OtherKind(name: string)

  datatype Field = Field(id: string, name: string, kind: Kind, system: bool,
                         primaryKey: bool, multiple: bool, settings: string) {
    /** Only select, file and relation fields implement MultiValuer. */
    predicate IsMultiple() {
      (kind.Select? || kind.File? || kind.Relation?) && multiple
    }

    predicate IsPrimaryKey() {
      kind.Text? && primaryKey
    }

    function ColumnType(): RecordTable.ColumnType {
      if IsMultiple() then JsonArrayColumn
      else if IsPrimaryKey() then KeyColumn
      else if kind.Number? then NumericColumn
      else if kind.Bool? then BooleanColumn
      else if kind.Json? then JsonColumn
      else TextColumn
    }
  }

  datatype Type = Base | Auth | View

  datatype Collection = Collection(name: string, kind: Type, fields: seq<Field>, indexes: seq<IndexDef>)

  ghost function Ids(fs: seq<Field>): set<string> {
    set f | f in fs :: f.id
  }

  function GetById(fs: seq<Field>, id: string): (r: Option<Field>)
    ensures r.Some? ==> r.value in fs && r.value.id == id
    ensures r.None? <==> id !in Ids(fs)
  {
    if fs == [] then None
    else if fs[0].id == id then Some(fs[0])
    else assert forall f :: f in fs <==> f == fs[0] || f in fs[1..]; GetById(fs[1..], id)
  }

  function GetByName(fs: seq<Field>, name: string): (r: Option<Field>)
    ensures r.Some? ==> r.value in fs && r.value.name == name
    ensures r.None? ==> forall f | f in fs :: f.name != name
  {
    if fs == [] then None else if fs[0].name == name then Some(fs[0]) else GetByName(fs[1..], name)
  }

  // ---- what the validator accepts -------------------------------------------------------------

  ghost predicate Clash(f: Field, g: Field) {
    f.id == g.id || Fold(f.name) == Fold(g.name)
  }

  ghost predicate NoDuplicates(fs: seq<Field>) {
    forall i, j | 0 <= i < |fs| && 0 <= j < |fs| && Clash(fs[i], fs[j]) :: i == j
  }

  ghost predicate SystemFieldsKept(old_: seq<Field>, new_: seq<Field>) {
    forall f | f in old_ && f.system :: GetById(new_, f.id).Some? && GetById(new_, f.id).value.name == f.name
  }

  ghost predicate FieldTypesKept(old_: seq<Field>, new_: seq<Field>) {
    forall f | f in new_ && GetById(old_, f.id).Some? :: GetById(old_, f.id).value.kind == f.kind
  }

  ghost predicate HasIdField(fs: seq<Field>) {
    GetByName(fs, "id").Some? && GetByName(fs, "id").value.IsPrimaryKey()
  }

  ghost predicate SinglePrimaryKey(fs: seq<Field>) {
    forall f, g | f in fs && g in fs && f.IsPrimaryKey() && g.IsPrimaryKey() :: f == g
  }

  /** The field list of a collection that is already stored: it passed the same checks, and
      the id field was forced to be a system field. */
  ghost predicate Stored(fs: seq<Field>) {
    NoDuplicates(fs) && SinglePrimaryKey(fs) && HasIdField(fs) && GetByName(fs, "id").value.system
  }

  ghost predicate ValidUpdate(old_: seq<Field>, new_: seq<Field>) {
    && NoDuplicates(new_) && HasIdField(new_) && SinglePrimaryKey(new_)
    && SystemFieldsKept(old_, new_) && FieldTypesKept(old_, new_)
  }

  datatype DuplicateError = DuplicateId(at: nat) | DuplicateName(at: nat)

  /** Accepts exactly the duplicate-free lists; otherwise points at the first field that clashes
      with an earlier one, blaming the id when both clash. */
  method CheckFieldDuplicates(fields: seq<Field>) returns (err: Option<DuplicateError>)
    ensures err.None? <==> NoDuplicates(fields)
    ensures err.Some? ==>
      && err.value.at < |fields|
      && NoDuplicates(fields[..err.value.at])
      && (err.value.DuplicateId? <==> exists j :: 0 <= j < err.value.at && fields[j].id == fields[err.value.at].id)
      && exists j :: 0 <= j < err.value.at && Clash(fields[j], fields[err.value.at])
  {
    var ids: seq<string> := [];
    var names: seq<string> := [];
    for i := 0 to |fields|
      invariant |ids| == |names| == i
      invariant forall j :: 0 <= j < i ==> ids[j] == fields[j].id && names[j] == Fold(fields[j].name)
      invariant forall j, k | 0 <= j < i && 0 <= k < i && Clash(fields[j], fields[k]) :: j == k
    {
      assert NoDuplicates(fields[..i]);
      if fields[i].id in ids {
        var j :| 0 <= j < i && ids[j] == fields[i].id;
        assert Clash(fields[j], fields[i]);
        return Some(DuplicateId(i));
      }
      if Fold(fields[i].name) in names {
        var j :| 0 <= j < i && names[j] == Fold(fields[i].name);
        assert Clash(fields[j], fields[i]);
        return Some(DuplicateName(i));
      }
      ids := ids + [fields[i].id];
      names := names + [Fold(fields[i].name)];
    }
    return None;
  }

  method EnsureNoSystemFieldsChange(original: seq<Field>, fields: seq<Field>) returns (ok: bool)
    ensures ok <==> SystemFieldsKept(original, fields)
  {
    for i := 0 to |original|
      invariant forall j :: 0 <= j < i && original[j].system ==>
        GetById(fields, original[j].id).Some? && GetById(fields, original[j].id).value.name == original[j].name
    {
      if original[i].system {
        var f := GetById(fields, original[i].id);
        if f.None? || f.value.name != original[i].name {
          assert original[i] in original;
          return false;
        }
      }
    }
    return true;
  }

  /** Collects the positions of the fields whose type changed. */
  method EnsureNoFieldsTypeChange(original: seq<Field>, fields: seq<Field>) returns (errs: set<nat>)
    ensures forall i: nat :: i in errs <==> i < |fields| && GetById(original, fields[i].id).Some?
                                            && GetById(original, fields[i].id).value.kind != fields[i].kind
    ensures errs == {} <==> FieldTypesKept(original, fields)
  {
    errs := {};
    for i := 0 to |fields|
      invariant forall j: nat :: j in errs <==> j < i && GetById(original, fields[j].id).Some?
                                                && GetById(original, fields[j].id).value.kind != fields[j].kind
    {
      var o := GetById(original, fields[i].id);
      if o.Some? && o.value.kind != fields[i].kind { errs := errs + {i}; }
    }
    if errs == {} {
      forall f | f in fields && GetById(original, f.id).Some?
        ensures GetById(original, f.id).value.kind == f.kind
      {
        var i :| 0 <= i < |fields| && fields[i] == f;
        assert i !in errs;
      }
    } else {
      var i :| i in errs;
      assert fields[i] in fields;
    }
  }

  // ---- why those checks make the DDL steps legal --------------------------------------------------

  lemma {:induction false} GetByIdMember(fs: seq<Field>, f: Field)
    requires NoDuplicates(fs) && f in fs
    ensures GetById(fs, f.id) == Some(f)
  {
    if fs[0] == f {
    } else {
      var j :| 0 <= j < |fs| && fs[j] == f;
      assert !Clash(fs[0], fs[j]);
      assert f == fs[1..][j - 1];
      GetByIdMember(fs[1..], f);
    }
  }

  lemma SameName(fs: seq<Field>, f: Field, g: Field)
    requires NoDuplicates(fs) && f in fs && g in fs && Fold(f.name) == Fold(g.name)
    ensures f == g
  {
    var i :| 0 <= i < |fs| && fs[i] == f;
    var j :| 0 <= j < |fs| && fs[j] == g;
    assert Clash(fs[i], fs[j]);
  }

  /** The primary key column survives every accepted update under its own id and name. */
  lemma PrimaryKeyKept(old_: seq<Field>, new_: seq<Field>)
    requires Stored(old_) && ValidUpdate(old_, new_)
    ensures GetByName(old_, "id").value.id == GetByName(new_, "id").value.id
  {
    var o := GetByName(old_, "id").value;
    var n := GetById(new_, o.id).value;
    SameName(new_, n, GetByName(new_, "id").value);
  }

  lemma PrimaryKeyIsId(fs: seq<Field>, f: Field)
    requires NoDuplicates(fs) && SinglePrimaryKey(fs) && HasIdField(fs) && f in fs
    ensures f.IsPrimaryKey() <==> f.id == GetByName(fs, "id").value.id
  {
    GetByIdMember(fs, f);
    GetByIdMember(fs, GetByName(fs, "id").value);
  }

  /** Only the id column is a primary key, on both sides of an accepted update: no dropped or
      added column is one. */
  lemma OnlyIdIsPrimaryKey(old_: seq<Field>, new_: seq<Field>, f: Field)
    requires Stored(old_) && ValidUpdate(old_, new_)
    ensures f in old_ && f.IsPrimaryKey() ==> f.id in Ids(new_)
    ensures f in new_ && f.IsPrimaryKey() ==> f.id in Ids(old_)
  {
    PrimaryKeyKept(old_, new_);
    if f in old_ { PrimaryKeyIsId(old_, f); }
    if f in new_ { PrimaryKeyIsId(new_, f); }
  }

  lemma KindAndKeyKept(old_: seq<Field>, new_: seq<Field>, o: Field, f: Field)
    requires Stored(old_) && ValidUpdate(old_, new_)
    requires f in new_ && GetById(old_, f.id) == Some(o)
    ensures o.kind == f.kind && o.IsPrimaryKey() == f.IsPrimaryKey()
  {
    assert o.kind == f.kind;
    var idOld, idNew := GetByName(old_, "id").value.id, GetByName(new_, "id").value.id;
    assert idOld == idNew by { PrimaryKeyKept(old_, new_); }
    assert o.IsPrimaryKey() <==> o.id == idOld by { PrimaryKeyIsId(old_, o); }
    assert f.IsPrimaryKey() <==> f.id == idNew by { PrimaryKeyIsId(new_, f); }
  }

  /** A kept column changes type only by changing multiplicity. */
  lemma ColumnTypeKept(old_: seq<Field>, new_: seq<Field>, o: Field, f: Field)
    requires Stored(old_) && ValidUpdate(old_, new_)
    requires f in new_ && GetById(old_, f.id) == Some(o) && o.IsMultiple() == f.IsMultiple()
    ensures o.ColumnType() == f.ColumnType()
  {
    KindAndKeyKept(old_, new_, o, f);
    SameColumn(o, f);
  }

  /** What the existing rows hold in the column of a new field. */
  lemma DefaultByKind(f: Field)
    ensures
      var many := f.multiple && (f.kind.Select? || f.kind.File? || f.kind.Relation?);
      f.ColumnType().Default() ==
        if many then Value(ArrayText([]))
        else if f.kind.Number? || f.kind.Bool? then Value(Plain("0"))
        else if f.kind.Json? then Null
        else Value(Plain(""))
  {
  }

  lemma SameColumn(o: Field, f: Field)
    requires o.kind == f.kind && o.IsPrimaryKey() == f.IsPrimaryKey() && o.IsMultiple() == f.IsMultiple()
    ensures o.ColumnType() == f.ColumnType()
  {
  }
}
