/** The keys of the realtime delete messages (apis/realtime.go): they are computed once when the
    messages are stored and anew when an after-hook of the delete fires. */
module DryCacheKeys {
  import opened Wrappers
  import opened CollectionsCache

  type Key = string

  const LOGS_TABLE := "_logs"

  /** A record, whose table is the current name of the collection it points to, or a proxy of one;
      or any other model of a record's table. */
  datatype Model = Record(table: string, id: string) | Custom(table: string, id: string)

  /** What a hook sees when it fires: the model, the cached collections, and which ids can be
      found in which tables. */
  datatype Sight = Sight(model: Model, cached: seq<Collection>, rows: set<(string, string)>)

  function DryCacheKey(table: string, id: string): Key {
    "delete/" + table + "/" + id
  }

  /** The first cached collection of that name or id. */
  function Lookup(cached: seq<Collection>, nameOrId: string): (r: Option<Collection>)
    ensures CacheAnswer(cached, nameOrId, r)
  {
    if cached == [] then None
    else if InCache(cached[0], nameOrId) then Some(cached[0])
    else Lookup(cached[1..], nameOrId)
  }

  /** The key of the record a model stands for: messages are stored, and error hooks discard,
      under it. */
  function RecordKey(s: Sight): Option<Key> {
    match s.model
    case Record(table, id) => Some(DryCacheKey(table, id))
    case Custom(table, id) =>
      var collection := if table == LOGS_TABLE then None else Lookup(s.cached, table);
      if collection.Some? && (collection.value.name, id) in s.rows
      then Some(DryCacheKey(collection.value.name, id))
      else None
  }

  /** Success hooks only look for the collection, and send what is stored under the model's own
      key. */
  function ModelKey(s: Sight): Option<Key> {
    if s.model.Record? || Lookup(s.cached, s.model.table).Some?
    then Some(DryCacheKey(s.model.table, s.model.id))
    else None
  }

  function LateKey(s: Sight, failed: bool): Option<Key> {
    if failed then RecordKey(s) else ModelKey(s)
  }

  predicate SameModel(made: Sight, late: Sight) {
    made.model.id == late.model.id && (made.model.Record? <==> late.model.Record?)
  }

  /** A record's collection has kept its name. Any other model's collection is still found by its
      table name and bears the name it had; so does, after a success, the model's table itself,
      and after an error the record is back. */
  predicate NameKept(made: Sight, late: Sight, failed: bool)
    requires SameModel(made, late) && RecordKey(made).Some?
  {
    if made.model.Record? then late.model.table == made.model.table
    else
      var name := Lookup(made.cached, made.model.table).value.name;
      var collection := Lookup(late.cached, late.model.table);
      && collection.Some?
      && if !failed then late.model.table == name
         else late.model.table != LOGS_TABLE && collection.value.name == name && (name, late.model.id) in late.rows
  }

  lemma KeysDiffer(a: string, b: string, id: string)
    ensures DryCacheKey(a, id) == DryCacheKey(b, id) <==> a == b
  {
    var x, y := DryCacheKey(a, id), DryCacheKey(b, id);
    assert |x| == 8 + |a| + |id| && |y| == 8 + |b| + |id|;
    assert x[7..7 + |a|] == a && y[7..7 + |b|] == b;
  }

  lemma SlashInLonger(a: string, id: string, b: string, other: string)
    requires |a| < |b| && a + "/" + id == b + "/" + other
    ensures '/' in b
  {
    assert (a + "/" + id)[|a|] == '/' && (b + "/" + other)[|a|] == b[|a|];
  }

  /** No two records of any tables share a key: a table name has no slash in it. */
  lemma RecordsHaveTheirOwnKeys(a: string, id: string, b: string, other: string)
    requires '/' !in a && '/' !in b
    ensures DryCacheKey(a, id) == DryCacheKey(b, other) <==> a == b && id == other
  {
    var x, y := DryCacheKey(a, id), DryCacheKey(b, other);
    if x == y {
      assert x[7..] == a + "/" + id && y[7..] == b + "/" + other;
      if |a| < |b| {
        SlashInLonger(a, id, b, other);
        assert false;
      } else if |b| < |a| {
        SlashInLonger(b, other, a, id);
        assert false;
      }
      assert (a + "/" + id)[..|a|] == a && (b + "/" + other)[..|b|] == b;
      assert (a + "/" + id)[|a| + 1..] == id && (b + "/" + other)[|b| + 1..] == other;
    }
  }

  /** An after-hook looks up the key the messages were stored under exactly then. */
  lemma LateKeyAgrees(made: Sight, late: Sight, failed: bool)
    requires SameModel(made, late) && RecordKey(made).Some?
    ensures LateKey(late, failed) == RecordKey(made) <==> NameKept(made, late, failed)
  {
    if made.model.Record? {
      KeysDiffer(made.model.table, late.model.table, made.model.id);
    } else {
      var name := Lookup(made.cached, made.model.table).value.name;
      var collection := Lookup(late.cached, late.model.table);
      KeysDiffer(name, late.model.table, made.model.id);
      if collection.Some? {
        KeysDiffer(name, collection.value.name, made.model.id);
      }
    }
  }
}
