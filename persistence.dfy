/** The SQLite store behind `Database`: three append-only tables with
    autoincrement ids, and the generic parameterised insert. */
module Persistence {
  import opened Json

  datatype Table = GeneratedSequences | Performance | Interactions

  function Name(t: Table): string {
    match t
    case GeneratedSequences => "generated_sequences"
    case Performance => "performance"
    case Interactions => "interactions"
  }

  /** The columns each table is created with, other than the autoincrement
      `id`, in declaration order. */
  function Columns(t: Table): seq<string> {
    match t
    case GeneratedSequences => ["group", "time", "seed", "hash", "width", "height", "length"]
    case Performance => ["sequence_id", "age", "successes", "failures", "mistakes", "elapsed", "user_id"]
    case Interactions => ["performance_id", "x", "y", "distance", "elapsed", "type", "class"]
  }

  /** A stored row: its id and a value for every column of its table. */
  datatype Row = Row(id: nat, values: map<string, Json>)

  /** A table's rows in insertion order and its `sqlite_sequence` entry,
      the largest id handed out so far. */
  datatype TableRows = TableRows(rows: seq<Row>, lastId: nat)

  datatype Tables = Tables(sequences: TableRows, performances: TableRows, interactions: TableRows) {

    function Get(t: Table): TableRows {
      match t
      case GeneratedSequences => sequences
      case Performance => performances
      case Interactions => interactions
    }

    function Put(t: Table, tr: TableRows): (r: Tables)
      ensures r.Get(t) == tr
      ensures forall u :: u != t ==> r.Get(u) == Get(u)
    {
      match t
      case GeneratedSequences => this.(sequences := tr)
      case Performance => this.(performances := tr)
      case Interactions => this.(interactions := tr)
    }
  }

  const Empty: Tables := Tables(TableRows([], 0), TableRows([], 0), TableRows([], 0))

  /** Ids are positive, strictly increasing in insertion order, and never
      above the last id handed out. */
  predicate ValidRows(tr: TableRows) {
    && (forall i :: 0 <= i < |tr.rows| ==> 1 <= tr.rows[i].id <= tr.lastId)
    && (forall i, j :: 0 <= i < j < |tr.rows| ==> tr.rows[i].id < tr.rows[j].id)
  }

  predicate Valid(db: Tables) {
    forall t :: ValidRows(db.Get(t))
  }

  /** Whether `prepare` accepts `INSERT INTO t (<keys>) VALUES (<:keys>)`:
      the column list must be non-empty and name columns of the table. */
  predicate Insertable(t: Table, data: Fields) {
    |data| > 0 && forall i :: 0 <= i < |data| ==> data[i].0 in Columns(t)
  }

  function ValueOrNull(v: Option<Json>): Json {
    if v.Some? then v.value else Null
  }

  /** The row an accepted insert stores: the given value for each given
      column, NULL for every other column of the table. */
  function RowValues(t: Table, data: Fields): map<string, Json> {
    Project(Columns(t), data)
  }

  /** The given value, or NULL, for each of `columns`. */
  function Project(columns: seq<string>, data: Fields): map<string, Json> {
    map c | c in columns :: ValueOrNull(Lookup(data, c))
  }

  /** The effect of `Database::store(t, data)`: the new row's id, or None
      when the statement could not be prepared, and the tables after it. */
  function Insert(db: Tables, t: Table, data: Fields): (Option<nat>, Tables) {
    if !Insertable(t, data) then (None, db)
    else
      var id := db.Get(t).lastId + 1;
      (Some(id), db.Put(t, TableRows(db.Get(t).rows + [Row(id, RowValues(t, data))], id)))
  }

  lemma InsertAppendsOneRow(db: Tables, t: Table, data: Fields)
    requires Valid(db)
    requires Insertable(t, data)
    ensures var (id, db') := Insert(db, t, data);
      && id.Some?
      && db'.Get(t).rows == db.Get(t).rows + [Row(id.value, RowValues(t, data))]
      && (forall i :: 0 <= i < |db.Get(t).rows| ==> db.Get(t).rows[i].id < id.value)
      && (forall u :: u != t ==> db'.Get(u) == db.Get(u))
      && Valid(db')
  {
    var (id, db') := Insert(db, t, data);
    forall u ensures ValidRows(db'.Get(u)) {
      if u != t {
        assert db'.Get(u) == db.Get(u);
        assert ValidRows(db.Get(u));
      } else {
        assert ValidRows(db.Get(t));
      }
    }
  }

  lemma InsertRejected(db: Tables, t: Table, data: Fields)
    requires !Insertable(t, data)
    ensures Insert(db, t, data) == (None, db)
  {
  }

  /** The stored row holds exactly the table's columns; each given column
      has the given value and every other column is NULL. */
  lemma RowValuesContents(t: Table, data: Fields)
    requires DistinctKeys(data)
    ensures RowValues(t, data).Keys == set c | c in Columns(t)
    ensures forall i :: 0 <= i < |data| && data[i].0 in Columns(t) ==>
      RowValues(t, data)[data[i].0] == data[i].1
    ensures forall c :: c in Columns(t) && c !in Keys(data) ==> RowValues(t, data)[c] == Null
  {
    ProjectContents(Columns(t), data);
  }

  lemma ProjectContents(columns: seq<string>, data: Fields)
    requires DistinctKeys(data)
    ensures Project(columns, data).Keys == set c | c in columns
    ensures forall i :: 0 <= i < |data| && data[i].0 in columns ==> Project(columns, data)[data[i].0] == data[i].1
    ensures forall c :: c in columns && c !in Keys(data) ==> Project(columns, data)[c] == Null
  {
    forall c | c in columns && c !in Keys(data) ensures Project(columns, data)[c] == Null {
      LookupFound(data, c);
    }
    forall i | 0 <= i < |data| && data[i].0 in columns
      ensures Project(columns, data)[data[i].0] == data[i].1
    {
      LookupAt(data, i);
    }
  }

  /** Each table's columns are distinct. */
  lemma ColumnsDistinct(t: Table)
    ensures forall i, j :: 0 <= i < j < |Columns(t)| ==> Columns(t)[i] != Columns(t)[j]
  {
  }

  /** Data naming every column of the table once, in declaration order, is
      accepted and stored as given. */
  lemma FullRow(t: Table, data: Fields)
    requires Keys(data) == Columns(t)
    ensures DistinctKeys(data) && Insertable(t, data)
    ensures forall i :: 0 <= i < |data| ==> RowValues(t, data)[data[i].0] == data[i].1
  {
    var cs := Columns(t);
    ColumnsDistinct(t);
    forall i | 0 <= i < |data| ensures data[i].0 == cs[i] {
      assert Keys(data)[i] == data[i].0;
    }
    forall i, j | 0 <= i < j < |data| ensures data[i].0 != data[j].0 {
      assert cs[i] != cs[j];
    }
    forall i | 0 <= i < |data| ensures data[i].0 in cs {
      assert cs[i] in cs;
    }
    RowValuesContents(t, data);
  }

  // ----- The steps `Database::store` goes through -----

  /** `'"' . $column . '"'` */
  function Quote(name: string): string {
    "\"" + name + "\""
  }

  /** `':' . $column` */
  function Placeholder(name: string): string {
    ":" + name
  }

  function Unquote(s: string): string {
    if |s| >= 2 && s[0] == '"' && s[|s| - 1] == '"' then s[1..|s| - 1] else s
  }

  lemma UnquoteQuote(name: string)
    ensures Unquote(Quote(name)) == name
  {
    assert Quote(name)[1..|Quote(name)| - 1] == name;
  }

  lemma PlaceholderInjective(a: string, b: string)
    requires Placeholder(a) == Placeholder(b)
    ensures a == b
  {
    assert a == Placeholder(a)[1..];
    assert b == Placeholder(b)[1..];
  }

  function Quoted(names: seq<string>): (r: seq<string>)
  {
    seq(|names|, i requires 0 <= i < |names| => Quote(names[i]))
  }

  function Placeholders(names: seq<string>): (r: seq<string>)
  {
    seq(|names|, i requires 0 <= i < |names| => Placeholder(names[i]))
  }

  function Unquoted(quoted: seq<string>): (r: seq<string>)
  {
    seq(|quoted|, i requires 0 <= i < |quoted| => Unquote(quoted[i]))
  }

  lemma UnquotedQuoted(names: seq<string>)
    ensures Unquoted(Quoted(names)) == names
  {
    forall i | 0 <= i < |names| ensures Unquoted(Quoted(names))[i] == names[i] {
      UnquoteQuote(names[i]);
    }
  }

  /** A prepared insert: the table, its column names and the placeholder
      bound to each of them. */
  datatype Statement = Statement(table: Table, columns: seq<string>, placeholders: seq<string>)

  /** SQLite's `prepare`: the statement parses only with a non-empty column
      list naming columns of the table. */
  function Prepare(t: Table, quoted: seq<string>, qmarks: seq<string>): Option<Statement> {
    var names := Unquoted(quoted);
    if |names| > 0 && |qmarks| == |names| && forall i :: 0 <= i < |names| ==> names[i] in Columns(t)
    then Some(Statement(t, names, qmarks))
    else None
  }

  /** The statement `Database::store` builds parses exactly when the insert
      is one SQLite accepts. */
  lemma PrepareBuilt(t: Table, data: Fields)
    ensures Prepare(t, Quoted(Keys(data)), Placeholders(Keys(data)))
      == if Insertable(t, data) then Some(Statement(t, Keys(data), Placeholders(Keys(data)))) else None
  {
    UnquotedQuoted(Keys(data));
  }

  /** The value a column receives: the value bound to its placeholder,
      NULL if the statement does not mention it or nothing was bound. */
  function ValueFor(c: string, names: seq<string>, phs: seq<string>, bound: map<string, Json>): Json
    requires |names| == |phs|
  {
    if names == [] then Null
    else if names[0] == c then (if phs[0] in bound then bound[phs[0]] else Null)
    else ValueFor(c, names[1..], phs[1..], bound)
  }

  /** Executing a prepared insert: every column of the table gets a value. */
  function Execute(st: Statement, bound: map<string, Json>): map<string, Json>
    requires |st.columns| == |st.placeholders|
  {
    map c | c in Columns(st.table) :: ValueFor(c, st.columns, st.placeholders, bound)
  }

  /** The bindings after `bindValue(':' . $column, $value)` for each entry. */
  function Bindings(data: Fields): map<string, Json> {
    if data == [] then map[]
    else Bindings(data[..|data| - 1])[Placeholder(data[|data| - 1].0) := data[|data| - 1].1]
  }

  lemma {:induction false} BindingsLookup(data: Fields, k: string)
    requires DistinctKeys(data)
    ensures Placeholder(k) in Bindings(data) <==> k in Keys(data)
    ensures k in Keys(data) ==> Lookup(data, k).Some? && Bindings(data)[Placeholder(k)] == Lookup(data, k).value
  {
    LookupFound(data, k);
    if data != [] {
      var init, last := data[..|data| - 1], data[|data| - 1];
      assert data == init + [last];
      BindingsLookup(init, k);
      LookupAppend(init, last, k);
      if Placeholder(last.0) == Placeholder(k) {
        PlaceholderInjective(last.0, k);
      }
    }
  }

  lemma {:induction false} ValueForNames(c: string, names: seq<string>, bound: map<string, Json>)
    ensures ValueFor(c, names, Placeholders(names), bound)
      == if c in names && Placeholder(c) in bound then bound[Placeholder(c)] else Null
  {
    if names != [] && names[0] != c {
      var rest := names[1..];
      assert Placeholders(names)[1..] == Placeholders(rest);
      ValueForNames(c, rest, bound);
      assert c in names <==> c in rest;
    }
  }

  /** Executing the statement `Database::store` prepares and binds yields
      exactly `RowValues`: the placeholders line up with the columns. */
  lemma ExecuteStoresData(t: Table, data: Fields)
    requires DistinctKeys(data)
    ensures Execute(Statement(t, Keys(data), Placeholders(Keys(data))), Bindings(data)) == RowValues(t, data)
  {
    var names := Keys(data);
    forall c | c in Columns(t)
      ensures ValueFor(c, names, Placeholders(names), Bindings(data)) == ValueOrNull(Lookup(data, c))
    {
      ValueForNames(c, names, Bindings(data));
      BindingsLookup(data, c);
      LookupFound(data, c);
    }
  }

  /** The first `foreach` of `Database::store`: the quoted column names
      and the named placeholders, one per entry, in the entries' order. */
  method ColumnLists(data: Fields) returns (columns: seq<string>, qmarks: seq<string>)
    ensures columns == Quoted(Keys(data))
    ensures qmarks == Placeholders(Keys(data))
  {
    columns, qmarks := [], [];
    for i := 0 to |data|
      invariant |columns| == |qmarks| == i
      invariant forall k :: 0 <= k < i ==> columns[k] == Quote(data[k].0)
      invariant forall k :: 0 <= k < i ==> qmarks[k] == Placeholder(data[k].0)
    {
      columns := columns + [Quote(data[i].0)];
      qmarks := qmarks + [Placeholder(data[i].0)];
    }
  }

  /** The second `foreach`: `bindValue(':' . $column, $value)` per entry. */
  method BindValues(data: Fields) returns (bound: map<string, Json>)
    ensures bound == Bindings(data)
  {
    bound := map[];
    for i := 0 to |data|
      invariant bound == Bindings(data[..i])
    {
      assert data[..i + 1][..i] == data[..i];
      bound := bound[Placeholder(data[i].0) := data[i].1];
    }
    assert data[..|data|] == data;
  }

  /** The database connection (`Database::$conn`) and its three tables. */
  class Database {
    var tables: Tables

    /** The state after `createTables`: three empty tables. */
    constructor ()
      ensures tables == Empty
    {
      tables := Empty;
    }

    /** `Database::store($tablename, $data)`: build the column and
        placeholder lists, prepare, bind every value, execute and return the
        new row id. None stands for the fatal error PHP raises when
        `prepare` fails and `bindValue` is called on `false`. The `$values`
        list the source also builds is never read and is left out. */
    method Store(t: Table, data: Fields) returns (id: Option<nat>)
      requires DistinctKeys(data)
      modifies this
      ensures (id, tables) == Insert(old(tables), t, data)
    {
      var columns, qmarks := ColumnLists(data);
      PrepareBuilt(t, data);
      var stmt := Prepare(t, columns, qmarks);
      if stmt.None? {
        id := None;
        return;
      }
      var bound := BindValues(data);
      ExecuteStoresData(t, data);
      var values := Execute(stmt.value, bound);
      var newId := tables.Get(t).lastId + 1;
      tables := tables.Put(t, TableRows(tables.Get(t).rows + [Row(newId, values)], newId));
      id := Some(newId);
    }
  }
}
