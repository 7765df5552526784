/** Applying generated migrations again after they were reverted (lib/cluster/commands/smoke.go, the `migrate`
    commands). The downs drop the columns and their contents, so a second up meets rows the first did not. */
module ReapplyMigrations {
  import opened Text
  import opened Migrations

  /** The columns of a table that a list adds to, filled with their initial values, and its rows with them. */
  function Filled(x: Engine, ms: seq<Migration>, n: TableName, t: Table): Table {
    if ms == [] then t else
      var before := Filled(x, ms[..|ms| - 1], n, t);
      var m := ms[|ms| - 1];
      if m.AddColumn? && m.name == n then WithColumn(x, before, m.column) else before
  }

  /** Migration k finds the rows of its table, with the columns added before it filled in, acceptable. */
  predicate RowsAllowAt(ms: seq<Migration>, s: Server, k: nat)
    requires k < |ms|
  {
    (ms[k].AddColumn? || ms[k].AddIndex?) && ms[k].name in s.tables ==>
      RowsAllow(s.engine, ms[k], Filled(s.engine, ms[..k], ms[k].name, s.tables[ms[k].name]))
  }

  /** The rows of the original tables stand in the way of no migration. */
  predicate RowsAllowAll(ms: seq<Migration>, s: Server) {
    forall k :: 0 <= k < |ms| ==> RowsAllowAt(ms, s, k)
  }

  /** Original tables have been filled, and new ones are empty. */
  ghost predicate RowsFilled(ms: seq<Migration>, s: Server, t: Server) {
    t.engine == s.engine
    && forall n :: n in t.tables ==>
                     if n in s.tables then
                       var f := Filled(s.engine, ms, n, s.tables[n]);
                       t.tables[n].columns == f.columns && t.tables[n].rows == f.rows
                     else t.tables[n].rows == map[]
  }

  lemma RowsAllowSame(x: Engine, m: Migration, t: Table, t': Table)
    requires t.columns == t'.columns && t.rows == t'.rows
    ensures RowsAllow(x, m, t) <==> RowsAllow(x, m, t')
  {
  }

  lemma UpFills(ms: seq<Migration>, s: Server, v: Server, u: Server)
    requires ms != [] && RowsFilled(ms[..|ms| - 1], s, v) && Up(ms[|ms| - 1], v) == Some(u)
    requires forall n :: n in s.tables ==> n in v.tables
    ensures RowsFilled(ms, s, u)
    ensures forall n :: n in s.tables ==> n in u.tables
  {
    var m := ms[|ms| - 1];
    forall n | n in u.tables
      ensures if n in s.tables then
                var f := Filled(s.engine, ms, n, s.tables[n]);
                u.tables[n].columns == f.columns && u.tables[n].rows == f.rows
              else u.tables[n].rows == map[]
    {
      if n !in v.tables {
        assert u.tables[n] == NEW_TABLE;
      } else if m.AddColumn? && m.name == n {
        assert u.tables[n] == WithColumn(v.engine, v.tables[n], m.column);
      } else {
        assert u.tables[n].columns == v.tables[n].columns && u.tables[n].rows == v.tables[n].rows;
      }
    }
  }

  lemma {:induction false} UpsFill(ms: seq<Migration>, s: Server)
    requires RunUps(ms, s).Some?
    ensures RowsFilled(ms, s, RunUps(ms, s).value)
    ensures forall n :: n in s.tables ==> n in RunUps(ms, s).value.tables
  {
    if ms != [] {
      UpsFill(ms[..|ms| - 1], s);
      UpFills(ms, s, RunUps(ms[..|ms| - 1], s).value, RunUps(ms, s).value);
    }
  }

  /** On two servers of one schema a migration succeeds alike, as far as the rows allow it. */
  lemma UpRespectsSchema(m: Migration, s: Server, s': Server)
    requires SameSchema(s, s') && Up(m, s).Some?
    ensures Up(m, s').Some? <==>
            ((m.AddColumn? || m.AddIndex?) && m.name in s'.tables ==> RowsAllow(s'.engine, m, s'.tables[m.name]))
    ensures Up(m, s').Some? ==> SameSchema(Up(m, s).value, Up(m, s').value)
  {
    if (m.AddColumn? || m.AddIndex?) && m.name in s.tables {
      assert SameShape(s.tables[m.name], s'.tables[m.name]);
    }
  }

  lemma RowsAllowSplit(ms: seq<Migration>, s: Server)
    requires ms != []
    ensures RowsAllowAll(ms, s) <==> RowsAllowAll(ms[..|ms| - 1], s) && RowsAllowAt(ms, s, |ms| - 1)
  {
    var init := ms[..|ms| - 1];
    forall k | 0 <= k < |init| ensures RowsAllowAt(init, s, k) <==> RowsAllowAt(ms, s, k) {
      assert init[..k] == ms[..k];
    }
  }

  lemma EmptyRowsAllow(x: Engine, m: Migration, t: Table)
    requires t.rows == map[]
    ensures RowsAllow(x, m, t)
  {
  }

  /** When the ups succeed on one server, they succeed on another of the same schema exactly when no row there
      stands in the way, and lead to the same schema. */
  lemma {:induction false} UpsSucceedIff(ms: seq<Migration>, s: Server, s': Server)
    requires SameSchema(s, s') && RunUps(ms, s).Some?
    ensures RunUps(ms, s').Some? <==> RowsAllowAll(ms, s')
    ensures RunUps(ms, s').Some? ==> SameSchema(RunUps(ms, s).value, RunUps(ms, s').value)
  {
    if ms != [] {
      var last := |ms| - 1;
      UpsSucceedIff(ms[..last], s, s');
      RowsAllowSplit(ms, s');
      if RunUps(ms[..last], s').Some? {
        var u, u' := RunUps(ms[..last], s).value, RunUps(ms[..last], s').value;
        UpRespectsSchema(ms[last], u, u');
        UpsFill(ms[..last], s');
        if (ms[last].AddColumn? || ms[last].AddIndex?) && ms[last].name in u'.tables {
          var n := ms[last].name;
          if n in s'.tables {
            RowsAllowSame(s'.engine, ms[last], u'.tables[n], Filled(s'.engine, ms[..last], n, s'.tables[n]));
          } else {
            EmptyRowsAllow(s'.engine, ms[last], u'.tables[n]);
          }
        }
      }
    }
  }

  /** Up and down with any writes in between; the second up then succeeds if and only if no stored generated
      column and no index of the list fails on the rows that survive in the original tables, once the columns
      added before it are filled in. It ends in the schema of the first up. */
  lemma UpAgainIff(ms: seq<Migration>, s: Server, t: Server, t': Server)
    requires WellFormedServer(s) && RunUps(ms, s) == Some(t) && Harmless(ms, s)
    requires SameSchema(t, t') && WellFormedServer(t')
    ensures RunDowns(ms, t') == Some(Restored(s, t'))
    ensures RunUps(ms, Restored(s, t')).Some? <==> RowsAllowAll(ms, Restored(s, t'))
    ensures RunUps(ms, Restored(s, t')).Some? ==> SameSchema(t, RunUps(ms, Restored(s, t')).value)
  {
    DownsRestoreSchema(ms, s, t, t');
    UpsSucceedIff(ms, s, Restored(s, t'));
  }

  /** A list that alters its own tables only can always be applied again. */
  lemma UpAgain(ms: seq<Migration>, s: Server, t: Server, t': Server)
    requires WellFormedServer(s) && RunUps(ms, s) == Some(t) && Harmless(ms, s)
    requires SameSchema(t, t') && WellFormedServer(t')
    requires forall k, n :: 0 <= k < |ms| && n in s.tables ==> !Alters(ms[k], n)
    ensures RunDowns(ms, t').Some? && RunUps(ms, RunDowns(ms, t').value).Some?
    ensures SameSchema(t, RunUps(ms, RunDowns(ms, t').value).value)
  {
    UpAgainIff(ms, s, t, t');
    forall k | 0 <= k < |ms| ensures RowsAllowAt(ms, Restored(s, t'), k) {
      if ms[k].AddColumn? || ms[k].AddIndex? {
        assert ms[k].name in s.tables ==> !Alters(ms[k], ms[k].name);
      }
    }
  }

  // ---- what survives ----

  /** The server computes a stored column, and one that an index is on, when a row is written; any other
      generated column is computed when it is read, and a document need not have a value for it. */
  predicate Checked(t: Table, c: Column) {
    c.spec.Generated? && (!c.spec.isVirtual || exists i :: 0 <= i < |t.indexes| && Mentions(t.indexes[i], c.name))
  }

  /** What a server keeps true of a table under any writes: generated columns hold what the documents say,
      those it checks without an error, and unique indexes have no duplicates. */
  ghost predicate Consistent(x: Engine, t: Table) {
    && (forall i :: 0 <= i < |t.columns| && t.columns[i].spec.Generated? ==> Computed(x, t.rows, t.columns[i]))
    && (forall i :: 0 <= i < |t.columns| && Checked(t, t.columns[i]) ==> Fits(x, t.rows, t.columns[i]))
    && (forall i :: 0 <= i < |t.indexes| && t.indexes[i].kind.Unique? ==> UniqueOver(x, t.rows, t.indexes[i].columns))
  }

  predicate Computed(x: Engine, rows: map<int, Row>, c: Column)
    requires c.spec.Generated?
  {
    forall id :: id in rows && c.name in rows[id] && DATA in rows[id] ==>
                   rows[id][c.name] == x.read(rows[id][DATA], c.spec.path, c.sqlType).value
  }

  lemma OldColumnsComputed(x: Engine, t: Table, c: Column, d: Column)
    requires WellFormed(t) && CanAddColumn(t, c) && d in t.columns && d.spec.Generated? && Computed(x, t.rows, d)
    ensures Computed(x, WithColumn(x, t, c).rows, d) && (Fits(x, t.rows, d) ==> Fits(x, WithColumn(x, t, c).rows, d))
  {
    NamedColumn(t, d);
    var i :| 0 <= i < |t.columns| && t.columns[i] == d;
    assert c.name != DATA && c.name != d.name;
  }

  lemma NewColumnComputed(x: Engine, t: Table, c: Column)
    requires WellFormed(t) && CanAddColumn(t, c) && c.spec.Generated?
    ensures Computed(x, WithColumn(x, t, c).rows, c) && (Fits(x, t.rows, c) ==> Fits(x, WithColumn(x, t, c).rows, c))
  {
    assert c.name != DATA;
  }

  lemma AddColumnKeepsConsistent(x: Engine, n: TableName, t: Table, c: Column)
    requires WellFormed(t) && Consistent(x, t) && CanAddColumn(t, c) && RowsAllow(x, AddColumn(n, c), t)
    ensures Consistent(x, WithColumn(x, t, c))
  {
    var u := WithColumn(x, t, c);
    forall i | 0 <= i < |u.columns| && u.columns[i].spec.Generated?
      ensures Computed(x, u.rows, u.columns[i]) && (Checked(u, u.columns[i]) ==> Fits(x, u.rows, u.columns[i]))
    {
      if i < |t.columns| {
        assert u.columns[i] == t.columns[i] && (Checked(u, u.columns[i]) <==> Checked(t, t.columns[i]));
        OldColumnsComputed(x, t, c, t.columns[i]);
      } else {
        NewColumnComputed(x, t, c);
        assert forall k :: 0 <= k < |t.indexes| ==> !Mentions(t.indexes[k], c.name);
      }
    }
    forall k | 0 <= k < |t.indexes| && t.indexes[k].kind.Unique? ensures UniqueOver(x, u.rows, t.indexes[k].columns) {
      assert !Mentions(t.indexes[k], c.name) && UniqueOver(x, t.rows, t.indexes[k].columns);
      SameKeys(x, t, c, t.indexes[k].columns);
    }
  }

  lemma SameKeys(x: Engine, t: Table, c: Column, columns: seq<string>)
    requires c.name !in columns && UniqueOver(x, t.rows, columns)
    ensures UniqueOver(x, WithColumn(x, t, c).rows, columns)
  {
    var rows := WithColumn(x, t, c).rows;
    forall a, b | a in rows && b in rows && a != b ensures !Agree(x, rows[a], rows[b], columns) {
      if Agree(x, rows[a], rows[b], columns) {
        assert Agree(x, t.rows[a], t.rows[b], columns);
      }
    }
  }

  lemma AddIndexKeepsConsistent(x: Engine, n: TableName, t: Table, ix: Index)
    requires Consistent(x, t) && RowsAllow(x, AddIndex(n, ix), t)
    ensures Consistent(x, t.(indexes := t.indexes + [ix]))
  {
    var u := t.(indexes := t.indexes + [ix]);
    forall i | 0 <= i < |t.columns| && Checked(u, t.columns[i]) ensures Fits(x, t.rows, t.columns[i]) {
      assert Checked(t, t.columns[i]) || Mentions(ix, t.columns[i].name);
    }
  }

  /** The ups keep every table consistent, and make new ones so. */
  lemma {:induction false} UpsKeepConsistent(ms: seq<Migration>, s: Server, n: TableName)
    requires WellFormedServer(s) && RunUps(ms, s).Some? && n in RunUps(ms, s).value.tables
    requires n in s.tables ==> Consistent(s.engine, s.tables[n])
    ensures Consistent(s.engine, RunUps(ms, s).value.tables[n])
  {
    if ms != [] {
      var last := |ms| - 1;
      var m, v := ms[last], RunUps(ms[..last], s).value;
      UpsKeepWellFormed(ms[..last], s);
      UpsFill(ms[..last], s);
      if n in v.tables {
        UpsKeepConsistent(ms[..last], s, n);
        if m.AddColumn? && m.name == n {
          AddColumnKeepsConsistent(s.engine, n, v.tables[n], m.column);
        } else if m.AddIndex? && m.name == n {
          AddIndexKeepsConsistent(s.engine, n, v.tables[n], m.index);
        }
      } else {
        UpsFill(ms, s);
        assert RunUps(ms, s).value.tables[n] == NEW_TABLE;
      }
    }
  }

  lemma {:induction false} FilledColumns(x: Engine, ms: seq<Migration>, n: TableName, t: Table, t': Table)
    requires t.columns == t'.columns
    ensures Filled(x, ms, n, t).columns == Filled(x, ms, n, t').columns
  {
    if ms != [] {
      FilledColumns(x, ms[..|ms| - 1], n, t, t');
    }
  }

  /** What the list has added to a table by the end of the ups. */
  ghost predicate HasAdditions(ms: seq<Migration>, n: TableName, t: Table) {
    && (forall k :: 0 <= k < |ms| && ms[k].AddColumn? && ms[k].name == n ==> ms[k].column in t.columns)
    && (forall k :: 0 <= k < |ms| && ms[k].AddIndex? && ms[k].name == n ==> ms[k].index in t.indexes)
  }

  lemma {:induction false} UpsAdd(ms: seq<Migration>, s: Server, n: TableName)
    requires RunUps(ms, s).Some? && n in s.tables
    ensures n in RunUps(ms, s).value.tables && HasAdditions(ms, n, RunUps(ms, s).value.tables[n])
    ensures forall c :: c in s.tables[n].columns ==> c in RunUps(ms, s).value.tables[n].columns
  {
    if ms != [] {
      UpsAdd(ms[..|ms| - 1], s, n);
      OneMoreAddition(ms, n, RunUps(ms[..|ms| - 1], s).value.tables[n], RunUps(ms, s).value.tables[n]);
    }
  }

  lemma OneMoreAddition(ms: seq<Migration>, n: TableName, t: Table, t': Table)
    requires ms != [] && HasAdditions(ms[..|ms| - 1], n, t)
    requires var m := ms[|ms| - 1];
             && t'.columns == (if m.AddColumn? && m.name == n then t.columns + [m.column] else t.columns)
             && t'.indexes == (if m.AddIndex? && m.name == n then t.indexes + [m.index] else t.indexes)
    ensures HasAdditions(ms, n, t')
  {
    var last := |ms| - 1;
    forall k | 0 <= k < |ms| && ms[k].AddColumn? && ms[k].name == n ensures ms[k].column in t'.columns {
      assert k < last ==> ms[..last][k] == ms[k];
    }
    forall k | 0 <= k < |ms| && ms[k].AddIndex? && ms[k].name == n ensures ms[k].index in t'.indexes {
      assert k < last ==> ms[..last][k] == ms[k];
    }
  }

  /** The list adds nothing to the table but generated columns, and the table has them. */
  ghost predicate OnlyProperties(ms: seq<Migration>, n: TableName, t: Table) {
    forall k :: 0 <= k < |ms| && ms[k].AddColumn? && ms[k].name == n ==>
                  ms[k].column.spec.Generated? && ms[k].column in t.columns
  }

  lemma {:induction false} FilledColumnsStay(x: Engine, ms: seq<Migration>, n: TableName, base: Table, t: Table)
    requires forall c :: c in base.columns ==> c in t.columns
    requires OnlyProperties(ms, n, t)
    ensures forall c :: c in Filled(x, ms, n, base).columns ==> c in t.columns
  {
    if ms != [] {
      var init := ms[..|ms| - 1];
      assert forall k :: 0 <= k < |init| ==> init[k] == ms[k];
      FilledColumnsStay(x, init, n, base, t);
    }
  }

  lemma NamedColumn(t: Table, c: Column)
    requires c in t.columns
    ensures c.name in Names(t.columns)
  {
    var i :| 0 <= i < |t.columns| && t.columns[i] == c;
  }

  /** A generated column filled in again holds what it held before it was dropped. */
  lemma RefilledColumn(x: Engine, t: Table, names: set<string>, c: Column)
    requires WellFormed(t) && Consistent(x, t) && c in t.columns && c.spec.Generated? && DATA in names
    ensures var rows := Project(t.rows, names);
            (map id | id in rows :: rows[id][c.name := InitialValue(x, c, rows[id])])
            == Project(t.rows, names + {c.name})
  {
    NamedColumn(t, c);
    var i :| 0 <= i < |t.columns| && t.columns[i] == c;
    assert Computed(x, t.rows, c);
    var rows := Project(t.rows, names);
    forall id | id in t.rows
      ensures rows[id][c.name := InitialValue(x, c, rows[id])] == ProjectRow(t.rows[id], names + {c.name})
    {
      assert DATA in t.rows[id] && c.name in t.rows[id] && rows[id][DATA] == t.rows[id][DATA];
    }
  }

  lemma {:induction false} FilledIsProjection(ms: seq<Migration>, s: Server, n: TableName, t: Table)
    requires WellFormedServer(s) && RunUps(ms, s).Some? && n in s.tables
    requires WellFormed(t) && Consistent(s.engine, t) && OnlyProperties(ms, n, t)
    ensures var base := s.tables[n].(rows := Project(t.rows, Names(s.tables[n].columns)));
            var f := Filled(s.engine, ms, n, base);
            f.rows == Project(t.rows, Names(f.columns))
  {
    var x := s.engine;
    var base := s.tables[n].(rows := Project(t.rows, Names(s.tables[n].columns)));
    if ms != [] {
      var last := |ms| - 1;
      var init, m := ms[..last], ms[last];
      assert forall k :: 0 <= k < last ==> init[k] == ms[k];
      FilledIsProjection(init, s, n, t);
      if m.AddColumn? && m.name == n {
        var before := Filled(x, init, n, base);
        UpsFill(init, s);
        FilledColumns(x, init, n, s.tables[n], base);
        assert CanAddColumn(RunUps(init, s).value.tables[n], m.column);
        NamesAppended(before.columns, m.column);
        RefilledColumn(x, t, Names(before.columns), m.column);
      }
    }
  }

  lemma ProjectedRowsAllow(x: Engine, m: Migration, t: Table, f: Table)
    requires Consistent(x, t) && f.rows == Project(t.rows, Names(f.columns))
    requires forall c :: c in f.columns ==> c in t.columns
    requires m.AddColumn? ==> m.column in t.columns
    requires m.AddIndex? ==> m.index in t.indexes && forall c :: c in m.index.columns ==> c in Names(f.columns)
    ensures RowsAllow(x, m, f)
  {
    if m.AddIndex? {
      var k :| 0 <= k < |t.indexes| && t.indexes[k] == m.index;
      assert forall c: Column :: Mentions(m.index, c.name) ==> Mentions(t.indexes[k], c.name);
    }
    forall c | c in t.columns && Checked(t, c) ensures Fits(x, f.rows, c) {
      var i :| 0 <= i < |t.columns| && t.columns[i] == c;
      assert Fits(x, t.rows, c);
      forall id | id in f.rows && DATA in f.rows[id] ensures x.read(f.rows[id][DATA], c.spec.path, c.sqlType).fits {
        assert f.rows[id] == ProjectRow(t.rows[id], Names(f.columns));
      }
    }
    if m.AddIndex? && m.index.kind.Unique? {
      var i :| 0 <= i < |t.indexes| && t.indexes[i] == m.index;
      assert UniqueOver(x, t.rows, m.index.columns);
      forall a, b | a in f.rows && b in f.rows && a != b ensures !Agree(x, f.rows[a], f.rows[b], m.index.columns) {
        if Agree(x, f.rows[a], f.rows[b], m.index.columns) {
          assert Agree(x, t.rows[a], t.rows[b], m.index.columns) by {
            assert f.rows[a] == ProjectRow(t.rows[a], Names(f.columns));
            assert f.rows[b] == ProjectRow(t.rows[b], Names(f.columns));
          }
        }
      }
    }
  }

  /** Properties and indexes over them come back whatever was written: as long as the list adds only generated
      columns to the original tables, no write the server accepts can make the second up fail. */
  lemma PropertiesApplyAgain(ms: seq<Migration>, s: Server, t: Server, t': Server)
    requires WellFormedServer(s) && RunUps(ms, s) == Some(t) && Harmless(ms, s)
    requires SameSchema(t, t') && WellFormedServer(t')
    requires forall n, k :: n in s.tables && n in t'.tables && 0 <= k < |ms| && Alters(ms[k], n) ==>
                              Consistent(t'.engine, t'.tables[n])
    requires forall k :: 0 <= k < |ms| && ms[k].AddColumn? && ms[k].name in s.tables ==> ms[k].column.spec.Generated?
    ensures RunDowns(ms, t').Some? && RunUps(ms, RunDowns(ms, t').value).Some?
    ensures SameSchema(t, RunUps(ms, RunDowns(ms, t').value).value)
  {
    UpAgainIff(ms, s, t, t');
    UpsFill(ms, s);
    forall k | 0 <= k < |ms| ensures RowsAllowAt(ms, Restored(s, t'), k) {
      if (ms[k].AddColumn? || ms[k].AddIndex?) && ms[k].name in s.tables {
        PropertyAppliesAgain(ms, s, t, t', k);
      }
    }
  }

  /** A unique property, for one: it can always be applied again. */
  lemma UniquePropertyAgain(n: TableName, column: string, path: string, dataType: string, isVirtual: bool,
                            index: string, ms: seq<Migration>, s: Server, t: Server, t': Server)
    requires ms == [CreateProperty(n, column, path, dataType, isVirtual), CreateIndex(n, index, [column], true, false)]
    requires WellFormedServer(s) && RunUps(ms, s) == Some(t)
    requires SameSchema(t, t') && WellFormedServer(t')
    requires forall n, k :: n in s.tables && n in t'.tables && 0 <= k < |ms| && Alters(ms[k], n) ==>
                              Consistent(t'.engine, t'.tables[n])
    ensures RunDowns(ms, t').Some? && RunUps(ms, RunDowns(ms, t').value).Some?
  {
    NoTablesHarmless(ms, s);
    PropertiesApplyAgain(ms, s, t, t');
  }

  lemma PropertyAppliesAgain(ms: seq<Migration>, s: Server, t: Server, t': Server, k: nat)
    requires WellFormedServer(s) && RunUps(ms, s) == Some(t)
    requires SameSchema(t, t') && WellFormedServer(t') && t.engine == s.engine
    requires k < |ms| && (ms[k].AddColumn? || ms[k].AddIndex?) && ms[k].name in s.tables
    requires ms[k].name in t'.tables && Consistent(t'.engine, t'.tables[ms[k].name])
    requires forall k :: 0 <= k < |ms| && ms[k].AddColumn? && ms[k].name in s.tables ==> ms[k].column.spec.Generated?
    ensures RowsAllowAt(ms, Restored(s, t'), k)
  {
    var n, before, x := ms[k].name, ms[..k], s.engine;
    var now := t'.tables[n];
    UpsAdd(ms, s, n);
    assert SameShape(t.tables[n], now);
    assert forall j :: 0 <= j < k ==> before[j] == ms[j];
    assert OnlyProperties(before, n, now);
    MadeIt(ms, s, k);
    FilledIsProjection(before, s, n, now);
    var base := s.tables[n].(rows := Project(now.rows, Names(s.tables[n].columns)));
    assert Restored(s, t').tables[n] == base;
    FilledColumnsStay(x, before, n, base, now);
    UpsFill(before, s);
    FilledColumns(x, before, n, s.tables[n], base);
    ProjectedRowsAllow(x, ms[k], now, Filled(x, before, n, base));
  }

  /** Migration k succeeded on what the ones before it made of the server. */
  lemma MadeIt(ms: seq<Migration>, s: Server, k: nat)
    requires RunUps(ms, s).Some? && k < |ms|
    ensures RunUps(ms[..k], s).Some? && Up(ms[k], RunUps(ms[..k], s).value).Some?
  {
    if RunUps(ms[..k + 1], s).None? {
      PrefixFails(ms, s, k + 1);
    }
    assert ms[..k + 1][..k] == ms[..k];
  }

  // ---- a unique index over a new column ----

  ghost predicate Reflexive(x: Engine) {
    forall v :: x.same(v, v)
  }

  lemma TwoUps(n: TableName, c: Column, ix: Index, ms: seq<Migration>, s: Server)
    requires ms == [AddColumn(n, c), AddIndex(n, ix)]
    ensures RunUps(ms, s).Some? ==>
              n in s.tables && CanAddColumn(s.tables[n], c) && CanAddIndex(WithColumn(s.engine, s.tables[n], c), ix)
    ensures n in s.tables && CanAddColumn(s.tables[n], c) && RowsAllow(s.engine, ms[0], s.tables[n])
            && CanAddIndex(WithColumn(s.engine, s.tables[n], c), ix)
            && RowsAllow(s.engine, ms[1], WithColumn(s.engine, s.tables[n], c)) ==>
              var t := WithColumn(s.engine, s.tables[n], c);
              RunUps(ms, s) == Some(s.(tables := s.tables[n := t.(indexes := t.indexes + [ix])]))
  {
    assert ms[..1] == [ms[0]] && ms[..1][..0] == [];
    assert RunUps(ms[..1], s) == Up(ms[0], s);
    if n in s.tables {
      var t := WithColumn(s.engine, s.tables[n], c);
      var u := t.(indexes := t.indexes + [ix]);
      assert s.tables[n := t][n := u] == s.tables[n := u];
    }
  }

  lemma CreatedColumn(n: TableName, column: string, sqlType: string)
    requires CreateColumn(n, column, sqlType).Some?
    ensures CreateColumn(n, column, sqlType).value.AddColumn?
    ensures var c := CreateColumn(n, column, sqlType).value.column;
            c.name == column && (Indexable(c, Unique) ==> c.spec.NotNull?)
  {
  }

  /** One plain column and a unique index over it, added to a table that was there before: the second up
      succeeds if and only if at most one row is left in the table. */
  lemma UniqueColumnAgainIff(n: TableName, column: string, sqlType: string, index: string, ms: seq<Migration>,
                             s: Server, t: Server, t': Server)
    requires CreateColumn(n, column, sqlType).Some?
    requires ms == [CreateColumn(n, column, sqlType).value, CreateIndex(n, index, [column], true, false)]
    requires WellFormedServer(s) && RunUps(ms, s) == Some(t) && Reflexive(s.engine)
    requires SameSchema(t, t') && WellFormedServer(t')
    ensures n in t'.tables && RunDowns(ms, t').Some?
    ensures RunUps(ms, RunDowns(ms, t').value).Some?
            <==> forall a, b :: a in t'.tables[n].rows && b in t'.tables[n].rows ==> a == b
  {
    CreatedColumn(n, column, sqlType);
    IndexedColumnAgainIff(n, ms[0].column, ms[1].index, ms, s, t, t');
  }

  lemma FirstUpFacts(n: TableName, c: Column, ix: Index, ms: seq<Migration>, s: Server)
    requires ms == [AddColumn(n, c), AddIndex(n, ix)] && ix.kind.Unique? && ix.columns == [c.name]
    requires RunUps(ms, s).Some?
    ensures n in s.tables && c.name !in Names(s.tables[n].columns) && Indexable(c, Unique)
  {
    TwoUps(n, c, ix, ms, s);
    KeyColumn(s.engine, s.tables[n], c, ix);
  }

  lemma IndexedColumnAgainIff(n: TableName, c: Column, ix: Index, ms: seq<Migration>, s: Server, t: Server, t': Server)
    requires ms == [AddColumn(n, c), AddIndex(n, ix)] && ix.kind.Unique? && ix.columns == [c.name]
    requires Indexable(c, Unique) ==> c.spec.NotNull?
    requires WellFormedServer(s) && RunUps(ms, s) == Some(t) && Reflexive(s.engine)
    requires SameSchema(t, t') && WellFormedServer(t')
    ensures n in t'.tables && RunDowns(ms, t').Some?
    ensures RunUps(ms, RunDowns(ms, t').value).Some?
            <==> forall a, b :: a in t'.tables[n].rows && b in t'.tables[n].rows ==> a == b
  {
    FirstUpFacts(n, c, ix, ms, s);
    RowsLeft(ms, s, t, t', n);
    ColumnThenIndex(n, c, ix, Restored(s, t'), ms);
  }

  lemma TwoRowsBlock(n: TableName, c: Column, ix: Index, ms: seq<Migration>, s: Server, t: Server, t': Server,
                     a: int, b: int)
    requires ms == [AddColumn(n, c), AddIndex(n, ix)] && ix.kind.Unique? && ix.columns == [c.name] && c.spec.NotNull?
    requires WellFormedServer(s) && RunUps(ms, s) == Some(t) && Reflexive(s.engine)
    requires SameSchema(t, t') && WellFormedServer(t')
    requires n in t'.tables && a in t'.tables[n].rows && b in t'.tables[n].rows && a != b
    ensures RunDowns(ms, t').Some? && RunUps(ms, RunDowns(ms, t').value).None?
  {
    IndexedColumnAgainIff(n, c, ix, ms, s, t, t');
  }

  lemma NoTablesHarmless(ms: seq<Migration>, s: Server)
    requires forall k :: 0 <= k < |ms| ==> !ms[k].CreateTable?
    ensures Harmless(ms, s)
  {
  }

  lemma RowsLeft(ms: seq<Migration>, s: Server, t: Server, t': Server, n: TableName)
    requires WellFormedServer(s) && RunUps(ms, s) == Some(t) && n in s.tables
    requires SameSchema(t, t') && WellFormedServer(t')
    requires forall k :: 0 <= k < |ms| ==> !ms[k].CreateTable?
    ensures RunDowns(ms, t').Some?
    ensures n in t'.tables && Restored(s, t').tables[n].rows.Keys == t'.tables[n].rows.Keys
    ensures RunUps(ms, RunDowns(ms, t').value).Some? <==> RowsAllowAll(ms, Restored(s, t'))
  {
    NoTablesHarmless(ms, s);
    UpAgainIff(ms, s, t, t');
    UpsFill(ms, s);
    SurvivorKeys(s, t', n);
  }

  lemma SurvivorKeys(s: Server, t: Server, n: TableName)
    requires n in s.tables && n in t.tables
    ensures Restored(s, t).tables[n].rows.Keys == t.tables[n].rows.Keys
  {
  }

  /** A column the index is accepted on has a default. */
  lemma KeyColumn(x: Engine, t: Table, c: Column, ix: Index)
    requires c.name in ix.columns && !ix.kind.FullText? && CanAddIndex(WithColumn(x, t, c), ix)
    ensures Indexable(c, ix.kind)
  {
    assert WithColumn(x, t, c).columns[|t.columns|] == c;
  }

  lemma ColumnThenIndex(n: TableName, c: Column, ix: Index, s: Server, ms: seq<Migration>)
    requires ms == [AddColumn(n, c), AddIndex(n, ix)] && n in s.tables
    requires c.spec.NotNull? && ix.kind.Unique? && ix.columns == [c.name] && c.name !in Names(s.tables[n].columns)
    requires Reflexive(s.engine)
    ensures RowsAllowAll(ms, s) <==> forall a, b :: a in s.tables[n].rows && b in s.tables[n].rows ==> a == b
  {
    var t := s.tables[n];
    assert ms[..0] == [] && ms[..1] == [ms[0]] && ms[..1][..0] == [];
    assert Filled(s.engine, ms[..1], n, t) == WithColumn(s.engine, t, c);
    UniqueOverDefault(s.engine, t, c);
    OtherColumns(t, c);
    assert RowsAllowAt(ms, s, 0);
    assert RowsAllowAt(ms, s, 1) <==> UniqueOver(s.engine, WithColumn(s.engine, t, c).rows, [c.name]);
  }

  lemma UniqueOverDefault(x: Engine, t: Table, c: Column)
    requires c.spec.NotNull? && Reflexive(x)
    ensures UniqueOver(x, WithColumn(x, t, c).rows, [c.name]) <==> forall a, b :: a in t.rows && b in t.rows ==> a == b
  {
    var rows := WithColumn(x, t, c).rows;
    forall a, b | a in t.rows && b in t.rows ensures a in rows && b in rows && Agree(x, rows[a], rows[b], [c.name]) {
    }
  }

  lemma OtherColumns(t: Table, c: Column)
    requires c.name !in Names(t.columns)
    ensures forall i :: 0 <= i < |t.columns| ==> t.columns[i].name != c.name
  {
  }

  // ---- an input on which the second up fails ----

  const EMAIL_TABLE := TableName("d", "t")
  const EMAIL := Column("email", "VARCHAR(255)", NotNull("''"))
  const EMAIL_INDEX := Index("idx_email", Unique, ["email"])
  const EMAIL_COLUMNS := NEW_TABLE.columns + [EMAIL]

  function EmailRow(id: string, address: string): Row {
    map[ID := Literal(id), DATA := Literal("{}"), "email" := Literal(address)]
  }

  /** A server with the one table `d.t`, still empty. */
  function EmptyServer(x: Engine): Server {
    Server({"d"}, map[EMAIL_TABLE := NEW_TABLE], x)
  }

  /** The server after the first up, with rows the application wrote. */
  function EmailServer(x: Engine, rows: map<int, Row>): Server {
    Server({"d"}, map[EMAIL_TABLE := Table(EMAIL_COLUMNS, [EMAIL_INDEX], rows)], x)
  }

  /** A collation that tells the two addresses apart. */
  ghost predicate TellsApart(x: Engine) {
    Reflexive(x) && !x.same(Literal("a"), Literal("b")) && !x.same(Literal("b"), Literal("a"))
  }

  const EMAIL_ROWS := map[1 := EmailRow("1", "a"), 2 := EmailRow("2", "b")]

  lemma EmailMigrations()
    ensures CreateColumn(EMAIL_TABLE, "email", "VARCHAR(255)") == Some(AddColumn(EMAIL_TABLE, EMAIL))
    ensures CreateIndex(EMAIL_TABLE, "email", ["email"], true, false) == AddIndex(EMAIL_TABLE, EMAIL_INDEX)
  {
    assert "idx_" + "email" == "idx_email";
  }

  lemma EmailNames()
    ensures Names(NEW_TABLE.columns) == {ID, DATA}
    ensures Names(EMAIL_COLUMNS) == {ID, DATA, "email"} && "email" !in {ID, DATA}
  {
    assert NEW_TABLE.columns[0].name == ID && NEW_TABLE.columns[1].name == DATA;
    NamesAppended(NEW_TABLE.columns, EMAIL);
    assert |"email"| == 5 && |ID| == 2 && |DATA| == 4;
  }

  lemma EmailUps(x: Engine, ms: seq<Migration>)
    requires ms == [AddColumn(EMAIL_TABLE, EMAIL), AddIndex(EMAIL_TABLE, EMAIL_INDEX)]
    ensures RunUps(ms, EmptyServer(x)) == Some(EmailServer(x, map[]))
  {
    EmailNames();
    var t := WithColumn(x, NEW_TABLE, EMAIL);
    assert t == Table(EMAIL_COLUMNS, [], map[]);
    assert CanAddColumn(NEW_TABLE, EMAIL);
    OtherColumns(NEW_TABLE, EMAIL);
    assert CanAddIndex(t, EMAIL_INDEX);
    EmptyRowsAllow(x, ms[0], NEW_TABLE);
    EmptyRowsAllow(x, ms[1], t);
    TwoUps(EMAIL_TABLE, EMAIL, EMAIL_INDEX, ms, EmptyServer(x));
    var u := t.(indexes := t.indexes + [EMAIL_INDEX]);
    assert u == Table(EMAIL_COLUMNS, [EMAIL_INDEX], map[]);
    assert EmptyServer(x).tables[EMAIL_TABLE := u] == map[EMAIL_TABLE := u];
  }

  lemma EmailTablesAreSound(x: Engine, rows: map<int, Row>)
    requires TellsApart(x)
    requires rows == map[] || rows == EMAIL_ROWS
    ensures WellFormedServer(EmailServer(x, rows)) && Consistent(x, EmailServer(x, rows).tables[EMAIL_TABLE])
  {
    EmailNames();
    EmailRows(x, rows);
    var t := EmailServer(x, rows).tables[EMAIL_TABLE];
    assert forall i :: 0 <= i < |t.columns| ==> !t.columns[i].spec.Generated?;
  }

  lemma EmailRows(x: Engine, rows: map<int, Row>)
    requires TellsApart(x)
    requires rows == map[] || rows == EMAIL_ROWS
    ensures forall id :: id in rows ==> rows[id].Keys == {ID, DATA, "email"}
    ensures UniqueOver(x, rows, ["email"])
  {
    forall a, b | a in rows && b in rows && a != b ensures !Agree(x, rows[a], rows[b], ["email"]) {
      assert !x.same(rows[a]["email"], rows[b]["email"]) && "email" in ["email"];
    }
  }

  /** A plain column and a unique index over it, applied to that table. The application then writes two
      rows that differ in the column; the downs succeed, and the second up is refused, for both rows would
      have the default. */
  lemma SecondUpRefused(x: Engine, ms: seq<Migration>)
    requires TellsApart(x)
    requires ms == [CreateColumn(EMAIL_TABLE, "email", "VARCHAR(255)").value,
                    CreateIndex(EMAIL_TABLE, "email", ["email"], true, false)]
    ensures var s, t, t' := EmptyServer(x), EmailServer(x, map[]), EmailServer(x, EMAIL_ROWS);
            && WellFormedServer(s) && RunUps(ms, s) == Some(t) && Harmless(ms, s)
            && SameSchema(t, t') && WellFormedServer(t') && Consistent(x, t'.tables[EMAIL_TABLE])
            && RunDowns(ms, t').Some? && RunUps(ms, RunDowns(ms, t').value).None?
  {
    EmailMigrations();
    EmailUps(x, ms);
    EmailWrites(x);
    NoTablesHarmless(ms, EmptyServer(x));
    TwoRowsBlock(EMAIL_TABLE, EMAIL, EMAIL_INDEX, ms, EmptyServer(x), EmailServer(x, map[]),
                 EmailServer(x, EMAIL_ROWS), 1, 2);
  }

  lemma EmailWrites(x: Engine)
    requires TellsApart(x)
    ensures var s, t, t' := EmptyServer(x), EmailServer(x, map[]), EmailServer(x, EMAIL_ROWS);
            && WellFormedServer(s) && SameSchema(t, t') && WellFormedServer(t') && Consistent(x, t'.tables[EMAIL_TABLE])
            && 1 in t'.tables[EMAIL_TABLE].rows && 2 in t'.tables[EMAIL_TABLE].rows
  {
    NewTableWellFormed();
    EmailTablesAreSound(x, EMAIL_ROWS);
  }
}
