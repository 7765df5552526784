/** Generated migrations as schema transformers (lib/cluster/db/db.go, its templates, and
    lib/cluster/migration/migration.go). */
module Migrations {
  import opened Text

  // ---- schemas ----

  datatype Value = Null | Literal(text: string)

  /** What a server reads at a path of a document as a value of a type, and whether that converts without
      an error. */
  datatype Reading = Reading(value: Value, fits: bool)

  /** How the server reads documents, and which values its collation takes for the same. */
  datatype Engine = Engine(read: (Value, string, string) -> Reading, same: (Value, Value) -> bool)

  datatype ColumnSpec = Nullable | NotNull(defaultValue: string) | Generated(path: string, isVirtual: bool)

  datatype Column = Column(name: string, sqlType: string, spec: ColumnSpec)

  datatype IndexKind = Plain | Unique | FullText

  datatype Index = Index(name: string, kind: IndexKind, columns: seq<string>)

  type Row = map<string, Value>

  datatype Table = Table(columns: seq<Column>, indexes: seq<Index>, rows: map<int, Row>)

  datatype TableName = TableName(db: string, table: string)

  datatype Server = Server(databases: set<string>, tables: map<TableName, Table>, engine: Engine)

  const ID := "id"
  const DATA := "data"

  const NEW_TABLE :=
    Table([Column(ID, "BIGINT UNSIGNED", NotNull("AUTO_INCREMENT")), Column(DATA, "JSON", NotNull(""))], [], map[])

  function Names(columns: seq<Column>): set<string> {
    set i | 0 <= i < |columns| :: columns[i].name
  }

  function IndexNames(indexes: seq<Index>): set<string> {
    set i | 0 <= i < |indexes| :: indexes[i].name
  }

  predicate Mentions(ix: Index, column: string) {
    column in ix.columns
  }

  /** Indexes range over columns of the table, generated columns over its document, and every row has
      a value for every column. */
  ghost predicate WellFormed(t: Table) {
    && (forall i :: 0 <= i < |t.indexes| ==> t.indexes[i].columns != [])
    && (forall i, c :: 0 <= i < |t.indexes| && Mentions(t.indexes[i], c) ==> c in Names(t.columns))
    && ((exists i :: 0 <= i < |t.columns| && t.columns[i].spec.Generated?) ==> DATA in Names(t.columns))
    && (forall id :: id in t.rows ==> t.rows[id].Keys == Names(t.columns))
  }

  ghost predicate WellFormedServer(s: Server) {
    forall n :: n in s.tables ==> n.db in s.databases && WellFormed(s.tables[n])
  }

  // ---- the generated migrations ----

  datatype Migration =
    | CreateDatabase(db: string)
    | CreateTable(name: TableName)
    | AddColumn(name: TableName, column: Column)   // generated columns included
    | AddIndex(name: TableName, index: Index)

  /** The default of a column type, None for the types the generator refuses. */
  function ResolveDefault(sqlType: string): Option<string> {
    if sqlType == "INT" || sqlType == "BIGINT" then Some("0")
    else if sqlType == "FLOAT" || sqlType == "DOUBLE" then Some("0.0")
    else if sqlType == "BOOLEAN" then Some("false")
    else if sqlType == "MEDIUMBLOB" then Some("''")
    else if sqlType == "JSON" then Some("NULL")
    else if sqlType == "VARCHAR(255)" || sqlType == "MEDIUMTEXT" || sqlType == "CHAR(36)" then Some("''")
    else None
  }

  /** `CreateColumn`: types MySQL allows no default for become nullable columns. */
  function CreateColumn(name: TableName, column: string, sqlType: string): Option<Migration> {
    match ResolveDefault(sqlType)
    case None => None
    case Some(d) =>
      var isNullable := sqlType == "MEDIUMBLOB" || sqlType == "MEDIUMTEXT" || sqlType == "JSON";
      Some(AddColumn(name, Column(column, sqlType, if isNullable then Nullable else NotNull(d))))
  }

  /** `CreateProperty`. */
  function CreateProperty(name: TableName, column: string, path: string, dataType: string, isVirtual: bool): Migration {
    AddColumn(name, Column(column, dataType, Generated(path, isVirtual)))
  }

  /** `GenCreateSQL` for an index: unique wins over full-text. */
  function CreateIndex(name: TableName, index: string, columns: seq<string>, unique: bool, fullText: bool): Migration {
    AddIndex(name, Index("idx_" + index, if unique then Unique else if fullText then FullText else Plain, columns))
  }

  // ---- the statements ----

  /** What ADD COLUMN stores in the rows that are already there. */
  function InitialValue(x: Engine, c: Column, row: Row): Value {
    match c.spec
    case Nullable => Null
    case NotNull(d) => Literal(d)
    case Generated(path, _) => if DATA in row then x.read(row[DATA], path, c.sqlType).value else Null
  }

  function WithColumn(x: Engine, t: Table, c: Column): Table {
    Table(t.columns + [c], t.indexes, map id | id in t.rows :: t.rows[id][c.name := InitialValue(x, c, t.rows[id])])
  }

  function RemoveColumn(columns: seq<Column>, name: string): seq<Column> {
    if columns == [] then []
    else (if columns[0].name == name then [] else [columns[0]]) + RemoveColumn(columns[1..], name)
  }

  function RemoveName(names: seq<string>, name: string): seq<string> {
    if names == [] then [] else (if names[0] == name then [] else [names[0]]) + RemoveName(names[1..], name)
  }

  /** Dropping a column takes it out of every index, and an index that loses its last column goes too. */
  function StripIndexes(indexes: seq<Index>, column: string): seq<Index> {
    if indexes == [] then [] else
      var left := RemoveName(indexes[0].columns, column);
      (if left == [] then [] else [indexes[0].(columns := left)]) + StripIndexes(indexes[1..], column)
  }

  function RemoveIndex(indexes: seq<Index>, name: string): seq<Index> {
    if indexes == [] then []
    else (if indexes[0].name == name then [] else [indexes[0]]) + RemoveIndex(indexes[1..], name)
  }

  function ProjectRow(row: Row, names: set<string>): Row {
    map c | c in row && c in names :: row[c]
  }

  function Project(rows: map<int, Row>, names: set<string>): map<int, Row> {
    map id | id in rows :: ProjectRow(rows[id], names)
  }

  function WithoutColumn(t: Table, name: string): Table {
    Table(RemoveColumn(t.columns, name), StripIndexes(t.indexes, name), Project(t.rows, Names(t.columns) - {name}))
  }

  /** Two rows with the same key, none of its parts NULL. */
  predicate Agree(x: Engine, row: Row, row': Row, columns: seq<string>) {
    forall c :: c in columns ==>
                  c in row && c in row' && x.same(row[c], row'[c]) && row[c] != Null && row'[c] != Null
  }

  predicate UniqueOver(x: Engine, rows: map<int, Row>, columns: seq<string>) {
    forall a, b :: a in rows && b in rows && a != b ==> !Agree(x, rows[a], rows[b], columns)
  }

  /** Every document yields a value of the generated column's type. */
  predicate Fits(x: Engine, rows: map<int, Row>, c: Column) {
    c.spec.Generated? ==>
      forall id :: id in rows && DATA in rows[id] ==> x.read(rows[id][DATA], c.spec.path, c.sqlType).fits
  }

  /** A document that generated columns draw from cannot be dropped, nor can the last column, nor one without
      which a unique index would have duplicates. */
  predicate CanDropColumn(x: Engine, t: Table, name: string) {
    && name in Names(t.columns)
    && (name == DATA ==> forall i :: 0 <= i < |t.columns| ==> !t.columns[i].spec.Generated?)
    && |t.columns| > 1
    && (forall i :: 0 <= i < |t.indexes| && t.indexes[i].kind.Unique? && Mentions(t.indexes[i], name) ==>
                      var left := RemoveName(t.indexes[i].columns, name);
                      left == [] || UniqueOver(x, t.rows, left))
  }

  /** Keys need a bounded length, and full-text indexes text that is stored. */
  predicate Indexable(c: Column, kind: IndexKind) {
    if kind.FullText? then
      c.sqlType in ["VARCHAR(255)", "MEDIUMTEXT", "CHAR(36)"] && !(c.spec.Generated? && c.spec.isVirtual)
    else c.sqlType !in ["MEDIUMBLOB", "MEDIUMTEXT", "JSON"]
  }

  predicate CanAddIndex(t: Table, ix: Index) {
    && ix.name !in IndexNames(t.indexes) && ix.columns != []
    && (forall c :: c in ix.columns ==> c in Names(t.columns))
    && (forall i :: 0 <= i < |t.columns| && Mentions(ix, t.columns[i].name) ==> Indexable(t.columns[i], ix.kind))
  }

  predicate CanAddColumn(t: Table, c: Column) {
    c.name !in Names(t.columns) && (c.spec.Generated? ==> DATA in Names(t.columns)) && t.columns != []
  }

  /** What adding a column or an index asks of the rows: a stored generated column and an index over a
      generated one have to be computed for all of them, and a unique index tolerates no duplicates. */
  predicate RowsAllow(x: Engine, m: Migration, t: Table) {
    match m
    case AddColumn(_, c) => c.spec.Generated? && !c.spec.isVirtual ==> Fits(x, t.rows, c)
    case AddIndex(_, ix) =>
      && (forall i :: 0 <= i < |t.columns| && Mentions(ix, t.columns[i].name) ==> Fits(x, t.rows, t.columns[i]))
      && (ix.kind.Unique? ==> UniqueOver(x, t.rows, ix.columns))
    case _ => true
  }

  /** The up migration, None where the server reports an error. */
  function Up(m: Migration, s: Server): Option<Server> {
    match m
    case CreateDatabase(db) =>
      if db in s.databases then None else Some(s.(databases := s.databases + {db}))
    case CreateTable(n) =>
      if n.db !in s.databases then None
      else if n in s.tables then Some(s)
      else Some(s.(tables := s.tables[n := NEW_TABLE]))
    case AddColumn(n, c) =>
      if n !in s.tables || !CanAddColumn(s.tables[n], c) || !RowsAllow(s.engine, m, s.tables[n]) then None
      else Some(s.(tables := s.tables[n := WithColumn(s.engine, s.tables[n], c)]))
    case AddIndex(n, ix) =>
      if n !in s.tables || !CanAddIndex(s.tables[n], ix) || !RowsAllow(s.engine, m, s.tables[n]) then None
      else Some(s.(tables := s.tables[n := s.tables[n].(indexes := s.tables[n].indexes + [ix])]))
  }

  /** The down migration, None where the server reports an error. */
  function Down(m: Migration, s: Server): Option<Server> {
    match m
    case CreateDatabase(db) =>
      Some(s.(databases := s.databases - {db}, tables := map n | n in s.tables && n.db != db :: s.tables[n]))
    case CreateTable(n) => Some(s.(tables := s.tables - {n}))
    case AddColumn(n, c) =>
      if n !in s.tables || !CanDropColumn(s.engine, s.tables[n], c.name) then None
      else Some(s.(tables := s.tables[n := WithoutColumn(s.tables[n], c.name)]))
    case AddIndex(n, ix) =>
      if n !in s.tables || ix.name !in IndexNames(s.tables[n].indexes) then None
      else Some(s.(tables := s.tables[n := s.tables[n].(indexes := RemoveIndex(s.tables[n].indexes, ix.name))]))
  }

  /** All up migrations in order. */
  function RunUps(ms: seq<Migration>, s: Server): Option<Server> {
    if ms == [] then Some(s) else
      match RunUps(ms[..|ms| - 1], s)
      case None => None
      case Some(u) => Up(ms[|ms| - 1], u)
  }

  /** All down migrations, last first. */
  function RunDowns(ms: seq<Migration>, s: Server): Option<Server> {
    if ms == [] then Some(s) else
      match Down(ms[|ms| - 1], s)
      case None => None
      case Some(v) => RunDowns(ms[..|ms| - 1], v)
  }

  predicate Alters(m: Migration, n: TableName) {
    (m.AddColumn? || m.AddIndex?) && m.name == n
  }

  /** No table migration names a table of the given server, or one that a column or index migration
      earlier in the list already altered. */
  predicate Harmless(ms: seq<Migration>, s: Server) {
    forall k :: 0 <= k < |ms| && ms[k].CreateTable? ==>
                  ms[k].name !in s.tables && forall j :: 0 <= j < k ==> !Alters(ms[j], ms[k].name)
  }

  // ---- undoing one column or index ----

  lemma {:induction false} RemoveColumnAppended(columns: seq<Column>, c: Column)
    requires c.name !in Names(columns)
    ensures RemoveColumn(columns + [c], c.name) == columns
  {
    if columns != [] {
      assert columns[0].name in Names(columns);
      assert Names(columns[1..]) <= Names(columns);
      RemoveColumnAppended(columns[1..], c);
      assert (columns + [c])[1..] == columns[1..] + [c];
    } else {
      assert ([c])[1..] == [];
    }
  }

  lemma {:induction false} RemoveNameAbsent(names: seq<string>, name: string)
    requires name !in names
    ensures RemoveName(names, name) == names
  {
    if names != [] {
      RemoveNameAbsent(names[1..], name);
    }
  }

  lemma {:induction false} StripUnmentioned(indexes: seq<Index>, column: string)
    requires forall i :: 0 <= i < |indexes| ==> indexes[i].columns != [] && !Mentions(indexes[i], column)
    ensures StripIndexes(indexes, column) == indexes
  {
    if indexes != [] {
      assert !Mentions(indexes[0], column);
      RemoveNameAbsent(indexes[0].columns, column);
      StripUnmentioned(indexes[1..], column);
    }
  }

  lemma {:induction false} RemoveIndexAppended(indexes: seq<Index>, ix: Index)
    requires ix.name !in IndexNames(indexes)
    ensures RemoveIndex(indexes + [ix], ix.name) == indexes
  {
    if indexes != [] {
      assert indexes[0].name in IndexNames(indexes);
      assert IndexNames(indexes[1..]) <= IndexNames(indexes);
      RemoveIndexAppended(indexes[1..], ix);
      assert (indexes + [ix])[1..] == indexes[1..] + [ix];
    } else {
      assert ([ix])[1..] == [];
    }
  }

  lemma NamesAppended(columns: seq<Column>, c: Column)
    ensures Names(columns + [c]) == Names(columns) + {c.name}
  {
    var all := columns + [c];
    assert all[|columns|].name == c.name;
    forall n | n in Names(columns) ensures n in Names(all) {
      var i :| 0 <= i < |columns| && columns[i].name == n;
      assert all[i].name == n;
    }
  }

  /** Same columns and indexes; the rows are whatever the application made of them since. */
  predicate SameShape(t: Table, t': Table) {
    t.columns == t'.columns && t.indexes == t'.indexes
  }

  lemma DropUndoesAdd(x: Engine, t: Table, c: Column, t': Table)
    requires WellFormed(t) && CanAddColumn(t, c)
    requires SameShape(WithColumn(x, t, c), t') && WellFormed(t')
    ensures CanDropColumn(x, t', c.name)
    ensures var u := WithoutColumn(t', c.name);
            SameShape(t, u) && u.rows == Project(t'.rows, Names(t.columns)) && WellFormed(u)
  {
    NamesAppended(t.columns, c);
    RemoveColumnAppended(t.columns, c);
    forall i | 0 <= i < |t.indexes| ensures t.indexes[i].columns != [] && !Mentions(t.indexes[i], c.name) {
    }
    StripUnmentioned(t.indexes, c.name);
    assert Names(t'.columns) - {c.name} == Names(t.columns);
    if c.name == DATA {
      forall i | 0 <= i < |t'.columns| ensures !t'.columns[i].spec.Generated? {
        assert i < |t.columns| ==> t.columns[i] == t'.columns[i];
      }
    }
  }

  lemma AddKeepsWellFormed(x: Engine, t: Table, c: Column)
    requires WellFormed(t) && CanAddColumn(t, c)
    ensures WellFormed(WithColumn(x, t, c)) && Names(WithColumn(x, t, c).columns) == Names(t.columns) + {c.name}
    ensures Project(WithColumn(x, t, c).rows, Names(t.columns)) == t.rows
  {
    NamesAppended(t.columns, c);
    var u := WithColumn(x, t, c);
    forall id | id in t.rows ensures ProjectRow(u.rows[id], Names(t.columns)) == t.rows[id] {
    }
    if exists i :: 0 <= i < |u.columns| && u.columns[i].spec.Generated? {
      var i :| 0 <= i < |u.columns| && u.columns[i].spec.Generated?;
      assert i < |t.columns| ==> t.columns[i].spec.Generated?;
    }
  }

  lemma UpKeepsWellFormed(m: Migration, s: Server, u: Server)
    requires WellFormedServer(s) && Up(m, s) == Some(u)
    ensures WellFormedServer(u)
  {
    match m
    case CreateDatabase(db) =>
    case CreateTable(n) => NewTableWellFormed();
    case AddColumn(n, c) => AddKeepsWellFormed(s.engine, s.tables[n], c);
    case AddIndex(n, ix) =>
      var t := s.tables[n];
      forall i, c | 0 <= i < |u.tables[n].indexes| && Mentions(u.tables[n].indexes[i], c)
        ensures c in Names(t.columns)
      {
        assert i < |t.indexes| ==> Mentions(t.indexes[i], c);
      }
  }

  lemma NewTableWellFormed()
    ensures WellFormed(NEW_TABLE)
  {
    assert NEW_TABLE.columns[1].name == DATA;
  }

  lemma {:induction false} UpsKeepWellFormed(ms: seq<Migration>, s: Server)
    requires WellFormedServer(s)
    ensures RunUps(ms, s).Some? ==> WellFormedServer(RunUps(ms, s).value)
  {
    if ms != [] && RunUps(ms, s).Some? {
      UpsKeepWellFormed(ms[..|ms| - 1], s);
      UpKeepsWellFormed(ms[|ms| - 1], RunUps(ms[..|ms| - 1], s).value, RunUps(ms, s).value);
    }
  }

  /** What a generated column brings to the rows that are there: the types with a default get it, the three
      without one NULL, and nothing else in the table changes. */
  lemma AddedColumnHolds(n: TableName, column: string, sqlType: string, s: Server, u: Server)
    requires CreateColumn(n, column, sqlType).Some? && Up(CreateColumn(n, column, sqlType).value, s) == Some(u)
    ensures n in s.tables && n in u.tables && u.tables[n].rows.Keys == s.tables[n].rows.Keys
    ensures forall id :: id in s.tables[n].rows ==>
                           u.tables[n].rows[id] == s.tables[n].rows[id][column :=
                             if sqlType in ["JSON", "MEDIUMTEXT", "MEDIUMBLOB"] then Null
                             else if sqlType in ["INT", "BIGINT"] then Literal("0")
                             else if sqlType in ["FLOAT", "DOUBLE"] then Literal("0.0")
                             else if sqlType == "BOOLEAN" then Literal("false")
                             else Literal("''")]
  {
  }

  /** What a generated property brings: in every row what the server reads at its path of the document. */
  lemma PropertyHolds(n: TableName, column: string, path: string, dataType: string, isVirtual: bool,
                      s: Server, u: Server)
    requires WellFormedServer(s) && Up(CreateProperty(n, column, path, dataType, isVirtual), s) == Some(u)
    ensures n in s.tables && n in u.tables && u.tables[n].rows.Keys == s.tables[n].rows.Keys
    ensures forall id :: id in s.tables[n].rows ==>
                           && "data" in s.tables[n].rows[id]
                           && var reading := s.engine.read(s.tables[n].rows[id]["data"], path, dataType);
                              u.tables[n].rows[id] == s.tables[n].rows[id][column := reading.value]
                              && (isVirtual || reading.fits)
  {
  }

  /** What a generated index brings: its name is prefixed, a unique index is unique even when it is asked to be
      full-text as well, and it has no duplicates from then on. */
  lemma IndexIsAdded(n: TableName, index: string, columns: seq<string>, unique: bool, fullText: bool,
                     s: Server, u: Server)
    requires Up(CreateIndex(n, index, columns, unique, fullText), s) == Some(u)
    ensures n in s.tables && n in u.tables && u.tables[n].rows == s.tables[n].rows
    ensures u.tables[n].indexes
            == s.tables[n].indexes
               + [Index("idx_" + index, if unique then Unique else if fullText then FullText else Plain, columns)]
    ensures unique ==> UniqueOver(s.engine, u.tables[n].rows, columns)
  {
  }

  // ---- undoing a whole list ----

  /** The server `v` on the way down, against the server `u` the ups had at the same place: the tables
      in `gone` are dropped already, the others have their shape back, and their rows are those of
      `top`, where the way down began, without the columns removed since. */
  ghost predicate OnTheWay(u: Server, v: Server, top: Server, gone: set<TableName>) {
    && v.databases == u.databases && v.engine == u.engine
    && v.tables.Keys == u.tables.Keys - gone
    && forall n :: n in v.tables ==> TableOnTheWay(u, v, top, n)
  }

  ghost predicate TableOnTheWay(u: Server, v: Server, top: Server, n: TableName) {
    && n in u.tables && n in v.tables && n in top.tables
    && SameShape(u.tables[n], v.tables[n]) && WellFormed(v.tables[n])
    && v.tables[n].rows == Project(top.tables[n].rows, Names(u.tables[n].columns))
  }

  lemma ProjectTwice(rows: map<int, Row>, outer: set<string>, inner: set<string>)
    requires inner <= outer
    ensures Project(Project(rows, outer), inner) == Project(rows, inner)
  {
    forall id | id in rows ensures ProjectRow(ProjectRow(rows[id], outer), inner) == ProjectRow(rows[id], inner) {
    }
  }

  function Dropped(m: Migration): set<TableName> {
    if m.CreateTable? then {m.name} else {}
  }

  lemma ColumnDownStep(n: TableName, c: Column, s: Server, u: Server, v: Server, top: Server, gone: set<TableName>)
    returns (w: Server)
    requires WellFormedServer(s) && Up(AddColumn(n, c), s) == Some(u)
    requires OnTheWay(u, v, top, gone) && n !in gone
    ensures Down(AddColumn(n, c), v) == Some(w) && OnTheWay(s, w, top, gone)
  {
    assert TableOnTheWay(u, v, top, n);
    DropUndoesAdd(s.engine, s.tables[n], c, v.tables[n]);
    NamesAppended(s.tables[n].columns, c);
    ProjectTwice(top.tables[n].rows, Names(u.tables[n].columns), Names(s.tables[n].columns));
    w := Down(AddColumn(n, c), v).value;
    forall m | m in w.tables ensures TableOnTheWay(s, w, top, m) {
      assert TableOnTheWay(u, v, top, m);
    }
  }

  lemma IndexDownStep(n: TableName, ix: Index, s: Server, u: Server, v: Server, top: Server, gone: set<TableName>)
    returns (w: Server)
    requires WellFormedServer(s) && Up(AddIndex(n, ix), s) == Some(u)
    requires OnTheWay(u, v, top, gone) && n !in gone
    ensures Down(AddIndex(n, ix), v) == Some(w) && OnTheWay(s, w, top, gone)
  {
    assert TableOnTheWay(u, v, top, n);
    var t := s.tables[n];
    RemoveIndexAppended(t.indexes, ix);
    assert v.tables[n].indexes == t.indexes + [ix] && (t.indexes + [ix])[|t.indexes|].name == ix.name;
    w := Down(AddIndex(n, ix), v).value;
    IndexFreeWellFormed(t, w.tables[n]);
    forall m | m in w.tables ensures TableOnTheWay(s, w, top, m) {
      assert TableOnTheWay(u, v, top, m);
    }
  }

  lemma IndexFreeWellFormed(t: Table, t': Table)
    requires WellFormed(t) && SameShape(t, t') && forall id :: id in t'.rows ==> t'.rows[id].Keys == Names(t.columns)
    ensures WellFormed(t')
  {
  }

  lemma DatabaseDownStep(db: string, s: Server, u: Server, v: Server, top: Server, gone: set<TableName>)
    returns (w: Server)
    requires WellFormedServer(s) && Up(CreateDatabase(db), s) == Some(u)
    requires OnTheWay(u, v, top, gone)
    ensures Down(CreateDatabase(db), v) == Some(w) && OnTheWay(s, w, top, gone)
  {
    w := Down(CreateDatabase(db), v).value;
    assert forall n :: n in v.tables ==> TableOnTheWay(u, v, top, n);
    assert w.tables == v.tables;
    forall n | n in w.tables ensures TableOnTheWay(s, w, top, n) {
      assert TableOnTheWay(u, v, top, n);
    }
  }

  lemma TableDownStep(n: TableName, s: Server, u: Server, v: Server, top: Server, gone: set<TableName>)
    returns (w: Server)
    requires Up(CreateTable(n), s) == Some(u)
    requires OnTheWay(u, v, top, gone)
    ensures Down(CreateTable(n), v) == Some(w) && OnTheWay(s, w, top, gone + {n})
  {
    w := Down(CreateTable(n), v).value;
    forall k | k in w.tables ensures TableOnTheWay(s, w, top, k) {
      assert TableOnTheWay(u, v, top, k);
    }
  }

  lemma DownStep(m: Migration, s: Server, u: Server, v: Server, top: Server, gone: set<TableName>) returns (w: Server)
    requires WellFormedServer(s) && Up(m, s) == Some(u)
    requires OnTheWay(u, v, top, gone)
    requires forall n :: n in gone ==> !Alters(m, n)
    ensures Down(m, v) == Some(w) && OnTheWay(s, w, top, gone + Dropped(m))
  {
    assert !m.CreateTable? ==> gone + Dropped(m) == gone;
    match m
    case CreateDatabase(db) => w := DatabaseDownStep(db, s, u, v, top, gone);
    case CreateTable(n) => w := TableDownStep(n, s, u, v, top, gone);
    case AddColumn(n, c) => w := ColumnDownStep(n, c, s, u, v, top, gone);
    case AddIndex(n, ix) => w := IndexDownStep(n, ix, s, u, v, top, gone);
  }

  lemma {:induction false} DownsFollowUps(ms: seq<Migration>, s: Server, u: Server, v: Server, top: Server,
                                          gone: set<TableName>) returns (w: Server)
    requires WellFormedServer(s) && RunUps(ms, s) == Some(u) && Harmless(ms, s)
    requires OnTheWay(u, v, top, gone)
    requires forall n :: n in gone ==> n !in s.tables && forall j :: 0 <= j < |ms| ==> !Alters(ms[j], n)
    ensures RunDowns(ms, v) == Some(w) && OnTheWay(s, w, top, {})
  {
    if ms == [] {
      w := v;
      assert s.tables.Keys - gone == s.tables.Keys - {};
    } else {
      var last := |ms| - 1;
      var s1 := RunUps(ms[..last], s).value;
      UpsKeepWellFormed(ms[..last], s);
      var v1 := DownStep(ms[last], s1, u, v, top, gone);
      w := DownsFollowUps(ms[..last], s, s1, v1, top, gone + Dropped(ms[last]));
    }
  }

  ghost predicate SameSchema(s: Server, s': Server) {
    && s.databases == s'.databases && s.engine == s'.engine && s.tables.Keys == s'.tables.Keys
    && forall n :: n in s.tables ==> SameShape(s.tables[n], s'.tables[n])
  }

  /** The original server with the rows that are left in its tables, without the columns it does not have. */
  function Restored(s: Server, t: Server): Server {
    s.(tables := map n | n in s.tables :: s.tables[n].(rows := SurvivingRows(s.tables[n], t, n)))
  }

  function SurvivingRows(original: Table, t: Server, n: TableName): map<int, Row> {
    if n in t.tables then Project(t.tables[n].rows, Names(original.columns)) else map[]
  }

  /** Whatever the application wrote in between, running all downs after all ups brings back the schema,
      and leaves the rows of every original table without the columns that were added. */
  lemma DownsRestoreSchema(ms: seq<Migration>, s: Server, t: Server, t': Server)
    requires WellFormedServer(s) && RunUps(ms, s) == Some(t) && Harmless(ms, s)
    requires SameSchema(t, t') && WellFormedServer(t')
    ensures RunDowns(ms, t') == Some(Restored(s, t')) && SameSchema(s, Restored(s, t'))
    ensures forall n :: n in s.tables ==> n in t'.tables
    ensures WellFormedServer(Restored(s, t'))
  {
    forall n | n in t'.tables ensures TableOnTheWay(t, t', t', n) {
      ProjectAll(t'.tables[n]);
    }
    var s' := DownsFollowUps(ms, s, t, t', t', {});
    OnTheWayIsRestored(s, s', t');
  }

  lemma OnTheWayIsRestored(s: Server, s': Server, t: Server)
    requires WellFormedServer(s) && OnTheWay(s, s', t, {})
    ensures s' == Restored(s, t) && SameSchema(s, s') && WellFormedServer(s')
    ensures forall n :: n in s.tables ==> n in t.tables
  {
    forall n | n in s.tables
      ensures n in t.tables && s'.tables[n] == Restored(s, t).tables[n] && WellFormed(s'.tables[n])
    {
      assert TableOnTheWay(s, s', t, n);
    }
    assert s'.tables == Restored(s, t).tables;
  }

  lemma ProjectAll(t: Table)
    requires WellFormed(t)
    ensures Project(t.rows, Names(t.columns)) == t.rows
  {
    forall id | id in t.rows ensures ProjectRow(t.rows[id], Names(t.columns)) == t.rows[id] {
    }
  }

  /** The ups leave the rows of the original tables alone, apart from the columns they add. */
  lemma {:induction false} UpsKeepRows(ms: seq<Migration>, s: Server, n: TableName)
    requires WellFormedServer(s) && n in s.tables && RunUps(ms, s).Some?
    ensures var t := RunUps(ms, s).value;
            n in t.tables && Names(s.tables[n].columns) <= Names(t.tables[n].columns)
            && Project(t.tables[n].rows, Names(s.tables[n].columns)) == s.tables[n].rows
  {
    if ms == [] {
      ProjectAll(s.tables[n]);
    } else {
      var last := |ms| - 1;
      UpsKeepRows(ms[..last], s, n);
      UpsKeepWellFormed(ms[..last], s);
      var u, t := RunUps(ms[..last], s).value, RunUps(ms, s).value;
      if ms[last].AddColumn? && ms[last].name == n {
        AddKeepsWellFormed(u.engine, u.tables[n], ms[last].column);
        ProjectTwice(t.tables[n].rows, Names(u.tables[n].columns), Names(s.tables[n].columns));
      }
    }
  }

  // ---- where the downs cannot restore ----

  lemma {:induction false} DroppedStaysDropped(ms: seq<Migration>, v: Server, n: TableName)
    requires n !in v.tables && RunDowns(ms, v).Some?
    ensures n !in RunDowns(ms, v).value.tables
    ensures forall j :: 0 <= j < |ms| ==> !Alters(ms[j], n)
  {
    if ms != [] {
      var last := |ms| - 1;
      DroppedStaysDropped(ms[..last], Down(ms[last], v).value, n);
      forall j | 0 <= j < |ms| ensures !Alters(ms[j], n) {
        assert j < last ==> ms[j] == ms[..last][j];
      }
    }
  }

  /** A table named by a table migration is missing once the downs have succeeded, and nothing earlier
      in the list can have altered it. */
  lemma {:induction false} CreatedIsGone(ms: seq<Migration>, v: Server, k: nat)
    requires k < |ms| && ms[k].CreateTable? && RunDowns(ms, v).Some?
    ensures ms[k].name !in RunDowns(ms, v).value.tables
    ensures forall j :: 0 <= j < k ==> !Alters(ms[j], ms[k].name)
  {
    var last := |ms| - 1;
    var v1 := Down(ms[last], v).value;
    if k == last {
      DroppedStaysDropped(ms[..last], v1, ms[k].name);
      assert forall j :: 0 <= j < k ==> ms[j] == ms[..last][j];
    } else {
      CreatedIsGone(ms[..last], v1, k);
      assert forall j :: 0 <= j <= k ==> ms[j] == ms[..last][j];
    }
  }

  /** The list that loses the least: a table migration for a table that exists changes nothing on the way up
      and drops the table with its rows on the way down. */
  lemma ExistingTableIsLost(n: TableName, ms: seq<Migration>, s: Server)
    requires ms == [CreateTable(n)] && n in s.tables && n.db in s.databases
    ensures RunUps(ms, s) == Some(s) && RunDowns(ms, s) == Some(s.(tables := s.tables - {n}))
  {
    assert ms[..0] == [];
  }

  /** When all ups succeed, all downs bring back the server, rows included, exactly when the list is
      harmless. */
  lemma DownsUndoUpsIff(ms: seq<Migration>, s: Server, t: Server)
    requires WellFormedServer(s) && RunUps(ms, s) == Some(t)
    ensures RunDowns(ms, t) == Some(s) <==> Harmless(ms, s)
  {
    if Harmless(ms, s) {
      UpsKeepWellFormed(ms, s);
      DownsRestoreSchema(ms, s, t, t);
      forall n | n in s.tables ensures Restored(s, t).tables[n] == s.tables[n] {
        UpsKeepRows(ms, s, n);
      }
      assert Restored(s, t).tables == s.tables;
    } else if RunDowns(ms, t) == Some(s) {
      forall k | 0 <= k < |ms| && ms[k].CreateTable?
        ensures ms[k].name !in s.tables && forall j :: 0 <= j < k ==> !Alters(ms[j], ms[k].name)
      {
        CreatedIsGone(ms, t, k);
      }
      assert false;
    }
  }

  /** When a prefix of the list fails, so does the list. */
  lemma {:induction false} PrefixFails(ms: seq<Migration>, s: Server, k: nat)
    requires k <= |ms| && RunUps(ms[..k], s) == None
    ensures RunUps(ms, s) == None
  {
    if k == |ms| {
      assert ms[..k] == ms;
    } else {
      assert ms[..|ms| - 1][..k] == ms[..k];
      PrefixFails(ms[..|ms| - 1], s, k);
    }
  }
}
