/** The `protocolos` database as the routes use it: the schema set-up of
    `criar_base_de_dados`, the insert of `save_protocol`, the counter updates
    of `ver_protocolo` and `avaliar_protocolo`, and the read queries of
    `search_protocols` and `get_stats`. */
module Storage {
  import opened Wrappers
  import opened Faults
  import opened Text
  import opened JsonModel
  import opened Schema
  import opened Migration
  import opened Coercion
  import opened Ordering
  import opened Queries

  /** The row's id cell is the integer id. */
  predicate HasId(r: Row, id: int) {
    "id" in r && r["id"] == SqlInt(id)
  }

  /** Every row has a positive integer id no greater than the last one
      handed out, and ids increase in table order (so no two rows share
      one). */
  predicate IdsBelow(rows: seq<Row>, last: int) {
    && 0 <= last
    && (forall i :: 0 <= i < |rows| ==> "id" in rows[i] && rows[i]["id"].SqlInt? && 0 < rows[i]["id"].n <= last)
    && (forall i, j :: 0 <= i < j < |rows| ==> rows[i]["id"].n < rows[j]["id"].n)
  }

  /** `SELECT ... WHERE id = ?`: the row with that id, if there is one. */
  function Find(rows: seq<Row>, id: int): (r: Option<Row>)
    ensures r.Some? ==> HasId(r.value, id)
    ensures r.None? <==> forall i :: 0 <= i < |rows| ==> !HasId(rows[i], id)
  {
    if rows == [] then None
    else if HasId(rows[0], id) then Some(rows[0])
    else
      assert forall i :: 0 < i < |rows| ==> rows[i] == rows[1..][i - 1];
      Find(rows[1..], id)
  }

  /** The row found is one of the table's rows. */
  lemma {:induction false} FindIn(rows: seq<Row>, id: int)
    ensures Find(rows, id).Some? ==> Find(rows, id).value in rows
  {
    if rows != [] && !HasId(rows[0], id) {
      FindIn(rows[1..], id);
    }
  }

  /** With distinct ids, the row found is the one at the index that holds
      the id. */
  lemma FindAt(rows: seq<Row>, last: int, i: nat)
    requires IdsBelow(rows, last) && i < |rows|
    ensures Find(rows, rows[i]["id"].n) == Some(rows[i])
  {
    var id := rows[i]["id"].n;
    var r := Find(rows, id);
    FindIn(rows, id);
    var j :| 0 <= j < |rows| && rows[j] == r.value;
    assert rows[j]["id"].n == id;
  }

  /** `counter + 1` in SQL: a number grows by one; NULL plus one is NULL. */
  function Inc(c: Cell): (r: Cell)
    ensures c.SqlInt? ==> r == SqlInt(c.n + 1)
    ensures c.SqlNull? ==> r == SqlNull
  {
    match c
    case SqlInt(n) => SqlInt(n + 1)
    case _ => c
  }

  /** `UPDATE protocolos SET column = column + 1 WHERE id = ?`. */
  function Bump(rows: seq<Row>, id: int, column: string): (r: seq<Row>)
    ensures |r| == |rows|
    ensures forall i :: 0 <= i < |rows| ==>
      r[i] == if HasId(rows[i], id) && column in rows[i] then rows[i][column := Inc(rows[i][column])] else rows[i]
  {
    seq(|rows|, i requires 0 <= i < |rows| =>
      if HasId(rows[i], id) && column in rows[i] then rows[i][column := Inc(rows[i][column])] else rows[i])
  }

  /** The row with the id, after the update, as the update leaves it. */
  function Bumped(r: Option<Row>, column: string): Option<Row> {
    match r
    case None => None
    case Some(row) => Some(if column in row then row[column := Inc(row[column])] else row)
  }

  /** The update changes exactly the one counter of the one row: reading the
      row back gives the old row with that counter incremented, every other
      row is unchanged, and no row's keys or id change. */
  lemma {:induction false} BumpFind(rows: seq<Row>, id: int, column: string)
    requires column != "id"
    ensures Find(Bump(rows, id, column), id) == Bumped(Find(rows, id), column)
  {
    if rows != [] {
      var b := Bump(rows, id, column);
      assert b[1..] == Bump(rows[1..], id, column);
      BumpFind(rows[1..], id, column);
    }
  }

  /** The update keeps every row's keys and id, so it keeps the table's
      shape and the id invariant. */
  lemma BumpKeepsIds(rows: seq<Row>, last: int, id: int, column: string)
    requires column != "id" && IdsBelow(rows, last)
    ensures forall i :: 0 <= i < |rows| ==> Bump(rows, id, column)[i].Keys == rows[i].Keys
    ensures IdsBelow(Bump(rows, id, column), last)
    ensures forall columns :: RowsFit(Table(columns, rows)) ==> RowsFit(Table(columns, Bump(rows, id, column)))
  {
    var b := Bump(rows, id, column);
    forall i | 0 <= i < |rows| ensures b[i].Keys == rows[i].Keys && b[i]["id"] == rows[i]["id"] {
    }
  }

  /** The update leaves every other column of every row as it was. */
  lemma BumpOnlyColumn(rows: seq<Row>, id: int, column: string, i: nat, k: string)
    requires i < |rows| && k in rows[i] && k != column
    ensures k in Bump(rows, id, column)[i] && Bump(rows, id, column)[i][k] == rows[i][k]
  {
  }

  /** The counter a rating names: "gosto" the likes, "nao_gosto" the
      dislikes; any other value, a missing one included, names none. */
  function CounterFor(tipo: Json): (r: Option<string>)
    ensures r == Some("gostos") <==> tipo == Str("gosto")
    ensures r == Some("nao_gostos") <==> tipo == Str("nao_gosto")
    ensures r.None? <==> tipo != Str("gosto") && tipo != Str("nao_gosto")
  {
    if tipo == Str("gosto") then Some("gostos")
    else if tipo == Str("nao_gosto") then Some("nao_gostos")
    else None
  }

  /** An update of an id no row has changes nothing. */
  lemma BumpMissing(rows: seq<Row>, id: int, column: string)
    requires Find(rows, id).None?
    ensures Bump(rows, id, column) == rows
  {
  }

  /** The update run n times over. */
  function BumpTimes(rows: seq<Row>, id: int, column: string, n: nat): seq<Row> {
    if n == 0 then rows else Bump(BumpTimes(rows, id, column, n - 1), id, column)
  }

  /** n requests on one protocol raise its counter by exactly n. */
  lemma {:induction false} BumpTimesCounts(rows: seq<Row>, id: int, column: string, n: nat, row: Row, k: int)
    requires column != "id" && Find(rows, id) == Some(row) && column in row && row[column] == SqlInt(k)
    ensures Find(BumpTimes(rows, id, column, n), id) == Some(row[column := SqlInt(k + n)])
  {
    if n == 0 {
      assert row[column := SqlInt(k)] == row;
    } else {
      var prev := BumpTimes(rows, id, column, n - 1);
      assert BumpTimes(rows, id, column, n) == Bump(prev, id, column);
      BumpTimesCounts(rows, id, column, n - 1, row, k);
      CountStep(prev, id, column, row, k + (n - 1));
      assert k + (n - 1) + 1 == k + n;
    }
  }

  /** One more update of a row whose counter holds j leaves it holding j + 1. */
  lemma CountStep(rows: seq<Row>, id: int, column: string, row: Row, j: int)
    requires column != "id" && column in row
    requires Find(rows, id) == Some(row[column := SqlInt(j)])
    ensures Find(Bump(rows, id, column), id) == Some(row[column := SqlInt(j + 1)])
  {
    BumpFind(rows, id, column);
    BumpedCount(row, column, j);
  }

  /** Incrementing a number cell written over a row. */
  lemma BumpedCount(row: Row, column: string, k: int)
    requires column in row
    ensures Bumped(Some(row[column := SqlInt(k)]), column) == Some(row[column := SqlInt(k + 1)])
  {
    var before := row[column := SqlInt(k)];
    assert before[column := Inc(before[column])] == row[column := SqlInt(k + 1)];
  }

  /** A NULL counter stays NULL however many requests there are. */
  lemma {:induction false} BumpTimesNull(rows: seq<Row>, id: int, column: string, n: nat, row: Row)
    requires column != "id" && Find(rows, id) == Some(row) && column in row && row[column] == SqlNull
    ensures Find(BumpTimes(rows, id, column, n), id) == Some(row)
  {
    if n > 0 {
      BumpTimesNull(rows, id, column, n - 1, row);
      BumpFind(BumpTimes(rows, id, column, n - 1), id, column);
      BumpedNull(row, column);
    }
  }

  /** Incrementing a NULL cell leaves the row as it was. */
  lemma BumpedNull(row: Row, column: string)
    requires column in row && row[column] == SqlNull
    ensures Bumped(Some(row), column) == Some(row)
  {
    assert row[column := SqlNull] == row;
  }

  /** The declared type of the column with the name, or "" for none.
      SQLite keeps column names distinct, so searching from the last column
      finds the only one. */
  function DeclOf(columns: seq<Column>, name: string): string {
    if columns == [] then ""
    else if columns[|columns| - 1].name == name then columns[|columns| - 1].decl
    else DeclOf(columns[..|columns| - 1], name)
  }

  /** The row an INSERT stores: the new id, the supplied values, and each
      declared default for the columns it does not name. */
  function NewRow(columns: seq<Column>, values: map<string, Cell>, id: int, now: int): (r: Row)
    ensures r.Keys == Names(columns)
    ensures "id" in r ==> r["id"] == SqlInt(id)
    ensures forall k :: k in values && k in r && k != "id" ==> r[k] == values[k]
    ensures forall k :: k in r && k !in values && k != "id" ==> r[k] == DeclDefault(DeclOf(columns, k), now)
  {
    map k | k in Names(columns) ::
      if k == "id" then SqlInt(id)
      else if k in values then values[k]
      else DeclDefault(DeclOf(columns, k), now)
  }

  /** On a freshly created table a new protocol starts with no likes, no
      dislikes, no views and the current moment as its creation time. */
  lemma FreshRowDefaults(values: map<string, Cell>, id: int, now: int)
    requires "gostos" !in values && "nao_gostos" !in values
    requires "visualizacoes" !in values && "data_criacao" !in values
    ensures var r := NewRow(FullSchema, values, id, now);
      && "gostos" in r && "nao_gostos" in r && "visualizacoes" in r && "data_criacao" in r
      && r["gostos"] == SqlInt(0) && r["nao_gostos"] == SqlInt(0)
      && r["visualizacoes"] == SqlInt(0) && r["data_criacao"] == SqlTime(now)
  {
    FullSchemaCounters();
    IntegerDefaultZero(now);
    TimestampDefaultNow(now);
    DefaultsFromDecls(FullSchema, values, id, now);
  }

  /** A row inserted without the counters takes them from their declared
      types. */
  lemma DefaultsFromDecls(columns: seq<Column>, values: map<string, Cell>, id: int, now: int)
    requires "gostos" !in values && "nao_gostos" !in values
    requires "visualizacoes" !in values && "data_criacao" !in values
    requires "gostos" in Names(columns) && "nao_gostos" in Names(columns)
    requires "visualizacoes" in Names(columns) && "data_criacao" in Names(columns)
    ensures var r := NewRow(columns, values, id, now);
      && "gostos" in r && "nao_gostos" in r && "visualizacoes" in r && "data_criacao" in r
      && r["gostos"] == DeclDefault(DeclOf(columns, "gostos"), now)
      && r["nao_gostos"] == DeclDefault(DeclOf(columns, "nao_gostos"), now)
      && r["visualizacoes"] == DeclDefault(DeclOf(columns, "visualizacoes"), now)
      && r["data_criacao"] == DeclDefault(DeclOf(columns, "data_criacao"), now)
  {
  }

  lemma IntegerDefaultZero(now: int)
    ensures DeclDefault("INTEGER DEFAULT 0", now) == SqlInt(0)
  {
    assert EndsWith("INTEGER DEFAULT 0", "DEFAULT 0");
  }

  lemma TimestampDefaultNow(now: int)
    ensures DeclDefault("TIMESTAMP DEFAULT CURRENT_TIMESTAMP", now) == SqlTime(now)
  {
    assert !EndsWith("TIMESTAMP DEFAULT CURRENT_TIMESTAMP", "DEFAULT 0");
    assert EndsWith("TIMESTAMP DEFAULT CURRENT_TIMESTAMP", "DEFAULT CURRENT_TIMESTAMP");
  }

  /** The full schema ends with the three counters and the creation time,
      each with its DEFAULT clause. */
  lemma FullSchemaCounters()
    ensures "gostos" in Names(FullSchema) && "nao_gostos" in Names(FullSchema)
    ensures "visualizacoes" in Names(FullSchema) && "data_criacao" in Names(FullSchema)
    ensures DeclOf(FullSchema, "gostos") == "INTEGER DEFAULT 0"
    ensures DeclOf(FullSchema, "nao_gostos") == "INTEGER DEFAULT 0"
    ensures DeclOf(FullSchema, "visualizacoes") == "INTEGER DEFAULT 0"
    ensures DeclOf(FullSchema, "data_criacao") == "TIMESTAMP DEFAULT CURRENT_TIMESTAMP"
  {
    var tail := [
      Column("gostos", "INTEGER DEFAULT 0"),
      Column("nao_gostos", "INTEGER DEFAULT 0"),
      Column("visualizacoes", "INTEGER DEFAULT 0"),
      Column("data_criacao", "TIMESTAMP DEFAULT CURRENT_TIMESTAMP")];
    var head := FullSchema[..20];
    assert FullSchema == head + tail;
    DeclOfTail(head, tail);
    assert FullSchema[20].name == "gostos" && FullSchema[21].name == "nao_gostos";
    assert FullSchema[22].name == "visualizacoes" && FullSchema[23].name == "data_criacao";
  }

  /** Four counter columns placed last declare what they say. */
  lemma DeclOfTail(head: seq<Column>, tail: seq<Column>)
    requires tail == [
      Column("gostos", "INTEGER DEFAULT 0"),
      Column("nao_gostos", "INTEGER DEFAULT 0"),
      Column("visualizacoes", "INTEGER DEFAULT 0"),
      Column("data_criacao", "TIMESTAMP DEFAULT CURRENT_TIMESTAMP")]
    ensures DeclOf(head + tail, "gostos") == "INTEGER DEFAULT 0"
    ensures DeclOf(head + tail, "nao_gostos") == "INTEGER DEFAULT 0"
    ensures DeclOf(head + tail, "visualizacoes") == "INTEGER DEFAULT 0"
    ensures DeclOf(head + tail, "data_criacao") == "TIMESTAMP DEFAULT CURRENT_TIMESTAMP"
  {
    var s := head + tail;
    var s3, s2, s1 := head + tail[..3], head + tail[..2], head + tail[..1];
    assert s[..|s| - 1] == s3 && s3[..|s3| - 1] == s2 && s2[..|s2| - 1] == s1;
    assert s1[|s1| - 1] == tail[0] && s2[|s2| - 1] == tail[1] && s3[|s3| - 1] == tail[2];
    assert DeclOf(s, "nao_gostos") == DeclOf(s3, "nao_gostos") == DeclOf(s2, "nao_gostos");
    assert DeclOf(s, "gostos") == DeclOf(s3, "gostos") == DeclOf(s2, "gostos") == DeclOf(s1, "gostos");
  }

  /** On a database reconciled from one without a view counter, the counter
      is declared plain "INTEGER": every protocol saved afterwards starts
      with NULL views, and incrementing NULL leaves it NULL. */
  lemma MigratedSavesNullViews(t: Table, values: map<string, Cell>, id: int, now: int, later: int)
    requires RowsFit(t) && "visualizacoes" !in Names(t.columns) && "visualizacoes" !in values
    ensures var r := NewRow(MigrateAll(t, Required, now).columns, values, id, later);
      "visualizacoes" in r && r["visualizacoes"] == SqlNull
  {
    MigratedViewsDecl(t, now);
    var cols := MigrateAll(t, Required, now).columns;
    assert "visualizacoes" in Names(cols) by {
      MigratedViewsStartNull(t, now);
      var i :| 0 <= i < |cols| && cols[i] == Column("visualizacoes", "INTEGER");
    }
    IntegerLacksDefault();
  }

  /** After reconciliation the view counter's declared type is "INTEGER". */
  lemma MigratedViewsDecl(t: Table, now: int)
    requires "visualizacoes" !in Names(t.columns)
    ensures DeclOf(MigrateAll(t, Required, now).columns, "visualizacoes") == "INTEGER"
  {
    var first, last := RequiredSplit();
    ViewsDeclBetween(t, first, last, now);
  }

  /** The same for any list that probes visualizacoes, declared
      "INTEGER DEFAULT 0", after columns of other names and before one more
      of another name. */
  lemma ViewsDeclBetween(t: Table, first: seq<(string, string)>, last: (string, string), now: int)
    requires "visualizacoes" !in Names(t.columns) && "visualizacoes" !in Mentioned(first)
    requires last.0 != "visualizacoes"
    ensures DeclOf(MigrateAll(t, first + [("visualizacoes", "INTEGER DEFAULT 0")] + [last], now).columns, "visualizacoes") == "INTEGER"
  {
    var views := ("visualizacoes", "INTEGER DEFAULT 0");
    var t13 := MigrateAll(t, first, now);
    MigrateAddsOnlyMentioned(t, first, now);
    ViewsStep(t13, now);
    var t14 := Step(t13, views, now);
    assert t14.columns == t13.columns + [Column("visualizacoes", "INTEGER")];
    MigrateSnoc(t, first, views, now);
    MigrateSnoc(t, first + [views], last, now);
    StepKeepsDecl(t14, last, now, "visualizacoes");
  }

  /** A step for another name leaves the declared type of a column alone. */
  lemma StepKeepsDecl(t: Table, c: (string, string), now: int, name: string)
    requires c.0 != name
    ensures DeclOf(Step(t, c, now).columns, name) == DeclOf(t.columns, name)
  {
    var r := Step(t, c, now);
    if c.0 !in Names(t.columns) {
      assert r.columns[..|r.columns| - 1] == t.columns;
    }
  }

  /** What is saved is what a reader decodes: a row inserted with the
      values `save_protocol` computes from a draft gives back every
      structured field of the draft. */
  lemma SaveThenRead(h: Host, p: seq<(string, Json)>, columns: seq<Column>, id: int, now: int)
    requires Lawful(h) && WellFormed(Obj(p))
    requires StorageValues(h, p).Keys <= Names(columns)
    ensures var r := Reconstruct(h, NewRow(columns, StorageValues(h, p), id, now));
      && r.Ok?
      && r.value.disciplinas == GetOr(p, "disciplinas", Arr([]))
      && r.value.anos == GetOr(p, "anos", Arr([]))
      && r.value.seguranca == GetOr(p, "seguranca", Obj([]))
      && r.value.quiz == GetOr(p, "quiz", Arr([]))
      && r.value.diferenciacao == GetOr(p, "diferenciacao", Obj([]))
  {
    var values := StorageValues(h, p);
    assert "id" !in values by {
      assert forall k :: k in InsertColumns ==> k != "id";
    }
    StoredStructureRestored(h, p, NewRow(columns, values, id, now));
  }

  /** The table has every column `save_protocol` inserts into. */
  predicate InsertFits(columns: seq<Column>) {
    forall k :: k in InsertColumns ==> k in Names(columns)
  }

  /** A new database has every column `save_protocol` inserts into, so a
      save of a dict draft succeeds there. */
  lemma InsertColumnsInFullSchema()
    ensures InsertFits(FullSchema)
  {
    forall k | k in InsertColumns ensures k in Names(FullSchema) {
      var j :| 0 <= j < |InsertColumns| && InsertColumns[j] == k;
      assert InsertColumns[j] == FullSchema[j + 1].name;
    }
  }

  /** The summary `get_stats` returns. */
  datatype Stats = Stats(
    total: nat,
    views: int,
    popular: seq<Row>,
    byDiscipline: seq<(Json, nat)>,
    latest: seq<Row>)

  /** The columns the statistics queries name. */
  predicate StatsColumns(columns: seq<Column>) {
    var names := Names(columns);
    && "id" in names && "titulo" in names && "autor" in names && "gostos" in names
    && "visualizacoes" in names && "disciplinas" in names && "data_criacao" in names
  }

  /** The columns the search query names. */
  predicate SearchColumns(columns: seq<Column>) {
    var names := Names(columns);
    "titulo" in names && "resumo" in names && "autor" in names && "data_criacao" in names
  }

  /** The statistics of a table, or the error `get_stats` turns into a 500. */
  function StatsOf(h: Host, t: Table): (r: Result<Stats, Fault>)
    ensures r.Err? ==> r.error == ServerError
    ensures r.Ok? <==> StatsColumns(t.columns) && AllDisciplines(h, t.rows).Ok? && MostCommon(AllDisciplines(h, t.rows).value).Ok?
    ensures r.Ok? ==>
      && r.value.total == |t.rows|
      && r.value.views == TotalViews(t.rows)
      && |r.value.popular| <= 5 && |r.value.latest| <= 5
      && r.value.byDiscipline == Sort(Tally(AllDisciplines(h, t.rows).value), CountRank)
  {
    if !StatsColumns(t.columns) then Err(ServerError)
    else
      var all := AllDisciplines(h, t.rows);
      if all.Err? then Err(ServerError)
      else
        var counts := MostCommon(all.value);
        if counts.Err? then Err(ServerError)
        else Ok(Stats(|t.rows|, TotalViews(t.rows),
          ProjectAll(Take(Sort(t.rows, PopularRank), 5), PopularColumns),
          counts.value,
          ProjectAll(Take(Sort(t.rows, DateRank), 5), LatestColumns)))
  }

  /** An empty database has no protocols, no views and empty listings. */
  lemma StatsEmpty(h: Host, columns: seq<Column>)
    requires StatsColumns(columns)
    ensures StatsOf(h, Table(columns, [])) == Ok(Stats(0, 0, [], [], []))
  {
    assert Tally([]) == [];
  }

  /** The popular listing holds the five highest-ranked protocols, by likes
      and then views, highest first. */
  lemma StatsPopularAreHighest(h: Host, t: Table)
    requires StatsOf(h, t).Ok?
    ensures var s := Sort(t.rows, PopularRank);
      && StatsOf(h, t).value.popular == ProjectAll(Take(s, 5), PopularColumns)
      && multiset(s) == multiset(t.rows)
      && forall i, j :: 0 <= i < |Take(s, 5)| <= j < |s| ==> !Outranks(PopularRank(s[j]), PopularRank(s[i]))
  {
    TakeKeepsHighest(Sort(t.rows, PopularRank), PopularRank, 5);
  }

  /** The latest listing holds the five most recently created protocols,
      newest first. */
  lemma StatsLatestAreNewest(h: Host, t: Table)
    requires StatsOf(h, t).Ok?
    ensures var s := Sort(t.rows, DateRank);
      && StatsOf(h, t).value.latest == ProjectAll(Take(s, 5), LatestColumns)
      && multiset(s) == multiset(t.rows)
      && forall i, j :: 0 <= i < |Take(s, 5)| <= j < |s| ==> !Outranks(DateRank(s[j]), DateRank(s[i]))
  {
    TakeKeepsHighest(Sort(t.rows, DateRank), DateRank, 5);
  }

  /** Every discipline named by some protocol is listed once, with the
      number of times the protocols name it. */
  lemma StatsCountsDisciplines(h: Host, t: Table, x: Json)
    requires StatsOf(h, t).Ok?
    ensures var all := AllDisciplines(h, t.rows).value;
      var counts := StatsOf(h, t).value.byDiscipline;
      && (x in all ==> (x, multiset(all)[x]) in counts)
      && forall e :: e in counts ==> e.0 in all && e.1 == multiset(all)[e.0] && multiset(counts)[e] == 1
  {
    MostCommonCounts(AllDisciplines(h, t.rows).value, x);
  }

  /** The database file and its one table. */
  class Database {
    var columns: seq<Column>
    var rows: seq<Row>
    /** The largest id AUTOINCREMENT has handed out. */
    var lastId: int

    predicate Valid()
      reads this
    {
      && RowsFit(Table(columns, rows))
      && "id" in Names(columns)
      && IdsBelow(rows, lastId)
    }

    /** A new database file: `CREATE TABLE` with the full schema. */
    constructor Create()
      ensures Valid()
      ensures columns == FullSchema && rows == [] && lastId == 0
    {
      columns := FullSchema;
      rows := [];
      lastId := 0;
      assert FullSchema[0].name == "id";
    }

    /** An existing database file, possibly of an older schema. */
    constructor Open(t: Table, last: int)
      requires RowsFit(t) && "id" in Names(t.columns) && IdsBelow(t.rows, last)
      ensures Valid()
      ensures columns == t.columns && rows == t.rows && lastId == last
    {
      columns := t.columns;
      rows := t.rows;
      lastId := last;
    }

    /** `criar_base_de_dados` on a database file: reconcile the table with
        the required columns. */
    method Migrate(now: int)
      requires Valid()
      modifies this
      ensures Valid()
      ensures Table(columns, rows) == MigrateAll(old(Table(columns, rows)), Required, now)
      ensures lastId == old(lastId)
    {
      Reconcile(Required, now);
    }

    /** The loop over a list of required columns: probe each, and add it
        when the probe fails. */
    method Reconcile(required: seq<(string, string)>, now: int)
      requires Valid()
      modifies this
      ensures Valid()
      ensures Table(columns, rows) == MigrateAll(old(Table(columns, rows)), required, now)
      ensures lastId == old(lastId)
    {
      var i := 0;
      while i < |required|
        invariant 0 <= i <= |required|
        invariant Table(columns, rows) == MigrateAll(old(Table(columns, rows)), required[..i], now)
        invariant Valid() && lastId == old(lastId)
      {
        Probe(required[i], now);
        assert required[..i + 1][..i] == required[..i];
        i := i + 1;
      }
      assert required[..|required|] == required;
    }

    /** One pass of the loop body: a column the probe can select is left
        alone; a missing one is added, its DEFAULT clause stripped, and
        backfilled when its name mentions data_criacao. */
    method Probe(c: (string, string), now: int)
      requires Valid()
      modifies this
      ensures Valid() && lastId == old(lastId)
      ensures Table(columns, rows) == Step(old(Table(columns, rows)), c, now)
    {
      var (name, decl) := c;
      var before := Table(columns, rows);
      var t := before;
      if name !in Names(columns) {
        if Contains(decl, "DEFAULT") {
          t := AddColumn(before, Column(name, StripDefault(decl)), now);
          if Contains(name, "data_criacao") {
            t := Backfill(t, name, now);
          }
        } else {
          t := AddColumn(before, Column(name, decl), now);
        }
      }
      assert t == Step(before, c, now);
      StepKeepsIds(before, c, now, lastId);
      columns, rows := t.columns, t.rows;
    }

    /** `INSERT INTO protocolos (...) VALUES (...)`: a value for a column
        the table lacks fails the statement; otherwise the row gets the next
        id, and that id is `lastrowid`. */
    method Insert(values: map<string, Cell>, now: int) returns (r: Result<int, Fault>)
      requires Valid() && "id" !in values
      modifies this
      ensures Valid() && columns == old(columns)
      ensures !(values.Keys <= Names(columns)) ==> r == Err(ServerError) && rows == old(rows) && lastId == old(lastId)
      ensures values.Keys <= Names(columns) ==>
        && r == Ok(old(lastId) + 1) && lastId == r.value
        && rows == old(rows) + [NewRow(columns, values, r.value, now)]
    {
      if !(values.Keys <= Names(columns)) {
        r := Err(ServerError);
      } else {
        var id := lastId + 1;
        var row := NewRow(columns, values, id, now);
        rows := rows + [row];
        lastId := id;
        r := Ok(id);
      }
    }

    /** `save_protocol`: the request body must be an object whose
        "protocolo" (an empty object when absent) is an object; its values
        are computed and inserted. */
    method SaveProtocol(h: Host, data: Json, now: int) returns (r: Result<int, Fault>)
      requires Valid()
      modifies this
      ensures Valid() && columns == old(columns)
      ensures r.Ok? <==>
        && data.Obj? && GetOr(data.fields, "protocolo", Obj([])).Obj?
        && InsertFits(columns)
      ensures r.Err? ==> r.error == ServerError && rows == old(rows) && lastId == old(lastId)
      ensures r.Ok? ==>
        && data.Obj? && GetOr(data.fields, "protocolo", Obj([])).Obj?
        && r.value == old(lastId) + 1 && lastId == r.value
        && rows == old(rows) + [NewRow(columns, StorageValues(h, GetOr(data.fields, "protocolo", Obj([])).fields), r.value, now)]
    {
      if !data.Obj? {
        r := Err(ServerError);
        return;
      }
      var protocolo := GetOr(data.fields, "protocolo", Obj([]));
      if !protocolo.Obj? {
        r := Err(ServerError);
        return;
      }
      var values := StorageValues(h, protocolo.fields);
      assert "id" !in values by {
        assert forall k :: k in InsertColumns ==> k != "id";
      }
      r := Insert(values, now);
    }

    /** `ver_protocolo`: count the view (committed before anything is
        read), then read the row back and decode it. A table without the
        counter fails before the update. */
    method ViewProtocol(h: Host, id: int) returns (r: Result<View, Fault>)
      requires Valid()
      modifies this
      ensures Valid() && columns == old(columns) && lastId == old(lastId)
      ensures "visualizacoes" !in Names(columns) ==> r == Err(ServerError) && rows == old(rows)
      ensures "visualizacoes" in Names(columns) ==>
        && rows == Bump(old(rows), id, "visualizacoes")
        && r == match Find(rows, id)
                case None => Err(NotFound)
                case Some(row) => Reconstruct(h, row)
    {
      if "visualizacoes" !in Names(columns) {
        r := Err(ServerError);
        return;
      }
      BumpFind(rows, id, "visualizacoes");
      BumpKeepsIds(rows, lastId, id, "visualizacoes");
      rows := Bump(rows, id, "visualizacoes");
      var found := Find(rows, id);
      match found
      case None => r := Err(NotFound);
      case Some(row) => r := Reconstruct(h, row);
    }

    /** `avaliar_protocolo`: a "tipo" other than "gosto" or "nao_gosto" is
        refused with nothing changed; otherwise its counter is incremented
        and committed, and both counters are read back. */
    method Rate(id: int, data: Json) returns (r: Result<(Cell, Cell), Fault>)
      requires Valid()
      modifies this
      ensures Valid() && columns == old(columns) && lastId == old(lastId)
      ensures !data.Obj? ==> r == Err(ServerError) && rows == old(rows)
      ensures data.Obj? && CounterFor(GetOr(data.fields, "tipo", Null)).None? ==>
        r == Err(BadRequest) && rows == old(rows)
      ensures data.Obj? && CounterFor(GetOr(data.fields, "tipo", Null)).Some? ==>
        var column := CounterFor(GetOr(data.fields, "tipo", Null)).value;
        && rows == (if column in Names(columns) then Bump(old(rows), id, column) else old(rows))
        && r == if column !in Names(columns) then Err(ServerError)
                else match Find(rows, id)
                  case None => Err(ServerError)
                  case Some(row) =>
                    if "gostos" in row && "nao_gostos" in row then Ok((row["gostos"], row["nao_gostos"]))
                    else Err(ServerError)
    {
      if !data.Obj? {
        r := Err(ServerError);
        return;
      }
      var tipo := GetOr(data.fields, "tipo", Null);
      var counter := CounterFor(tipo);
      if counter.None? {
        r := Err(BadRequest);
        return;
      }
      var column := counter.value;
      if column !in Names(columns) {
        r := Err(ServerError);
        return;
      }
      BumpFind(rows, id, column);
      BumpKeepsIds(rows, lastId, id, column);
      rows := Bump(rows, id, column);
      var found := Find(rows, id);
      match found
      case None => r := Err(ServerError);
      case Some(row) =>
        if "gostos" in row && "nao_gostos" in row {
          r := Ok((row["gostos"], row["nao_gostos"]));
        } else {
          r := Err(ServerError);
        }
    }

    /** `search_protocols`: the matching rows, newest first, each with its
        two lists decoded; the first row whose lists do not decode fails the
        whole request. */
    method Search(h: Host, q: string) returns (r: Result<seq<Hit>, Fault>)
      requires Valid()
      ensures r == if SearchColumns(columns) then Hits(h, SearchOrder(rows, q)) else Err(ServerError)
    {
      if !SearchColumns(columns) {
        return Err(ServerError);
      }
      var found := SearchOrder(rows, q);
      var hits: seq<Hit> := [];
      var i := 0;
      while i < |found|
        invariant 0 <= i <= |found|
        invariant Hits(h, found[..i]) == Ok(hits)
      {
        var disciplinas := HardDecode(h, found[i], "disciplinas");
        var anos := HardDecode(h, found[i], "anos");
        HitsStep(h, found, i);
        if disciplinas.Err? || anos.Err? {
          HitsFail(h, found, i + 1);
          return Err(ServerError);
        }
        hits := hits + [Hit(found[i], disciplinas.value, anos.value)];
        i := i + 1;
      }
      assert found[..i] == found;
      r := Ok(hits);
    }

    /** `get_stats`: the five queries and the loop over every row's
        disciplines; any failure is a 500. */
    method GetStats(h: Host) returns (r: Result<Stats, Fault>)
      requires Valid()
      ensures r == StatsOf(h, Table(columns, rows))
    {
      if !StatsColumns(columns) {
        return Err(ServerError);
      }
      var total := |rows|;
      var views := TotalViews(rows);
      var popular := ProjectAll(Take(Sort(rows, PopularRank), 5), PopularColumns);
      var all: seq<Json> := [];
      var i := 0;
      while i < |rows|
        invariant 0 <= i <= |rows|
        invariant AllDisciplines(h, rows[..i]) == Ok(all)
      {
        AllDisciplinesStep(h, rows, i);
        var d := HardDecode(h, rows[i], "disciplinas");
        if d.Err? {
          AllDisciplinesFail(h, rows, i + 1);
          return Err(ServerError);
        }
        var items := Elements(d.value);
        if items.None? {
          AllDisciplinesFail(h, rows, i + 1);
          return Err(ServerError);
        }
        all := all + items.value;
        i := i + 1;
      }
      assert rows[..i] == rows;
      var counts := MostCommon(all);
      if counts.Err? {
        return Err(ServerError);
      }
      var latest := ProjectAll(Take(Sort(rows, DateRank), 5), LatestColumns);
      r := Ok(Stats(total, views, popular, counts.value, latest));
    }
  }

  /** A reconciliation step keeps the table's shape, its id column and
      every id. */
  lemma StepKeepsIds(t: Table, c: (string, string), now: int, last: int)
    requires RowsFit(t) && "id" in Names(t.columns) && IdsBelow(t.rows, last)
    ensures var r := Step(t, c, now);
      RowsFit(r) && "id" in Names(r.columns) && IdsBelow(r.rows, last)
  {
    StepExtends(t, c, now);
    var r := Step(t, c, now);
    assert forall i :: 0 <= i < |t.rows| ==> r.rows[i]["id"] == t.rows[i]["id"];
  }

  /** The hits of one more row: those of the rows before it and its own, or
      a failure when its lists do not decode. */
  lemma HitsStep(h: Host, rows: seq<Row>, i: nat)
    requires i < |rows|
    ensures var d := HardDecode(h, rows[i], "disciplinas");
      var a := HardDecode(h, rows[i], "anos");
      Hits(h, rows[..i + 1]) ==
        if Hits(h, rows[..i]).Err? || d.Err? || a.Err? then Err(ServerError)
        else Ok(Hits(h, rows[..i]).value + [Hit(rows[i], d.value, a.value)])
  {
    assert rows[..i + 1][..i] == rows[..i];
  }

  /** A failure in the first n rows fails the whole search. */
  lemma {:induction false} HitsFail(h: Host, rows: seq<Row>, n: nat)
    requires n <= |rows| && Hits(h, rows[..n]).Err?
    ensures Hits(h, rows).Err?
  {
    var i :| 0 <= i < n && Fails(h, rows[..n][i]);
    assert rows[..n][i] == rows[i];
  }

  /** The disciplines of one more row: those of the rows before it and its
      own, or a failure. */
  lemma AllDisciplinesStep(h: Host, rows: seq<Row>, i: nat)
    requires i < |rows|
    ensures var d := HardDecode(h, rows[i], "disciplinas");
      AllDisciplines(h, rows[..i + 1]) ==
        if AllDisciplines(h, rows[..i]).Err? || d.Err? || Elements(d.value).None? then Err(ServerError)
        else Ok(AllDisciplines(h, rows[..i]).value + Elements(d.value).value)
  {
    assert rows[..i + 1][..i] == rows[..i];
  }

  /** A failure in the first n rows fails the whole discipline loop. */
  lemma {:induction false} AllDisciplinesFail(h: Host, rows: seq<Row>, n: nat)
    requires n <= |rows| && AllDisciplines(h, rows[..n]).Err?
    ensures AllDisciplines(h, rows).Err?
    decreases |rows|
  {
    if n < |rows| {
      var prefix := rows[..|rows| - 1];
      assert prefix[..n] == rows[..n];
      AllDisciplinesFail(h, prefix, n);
    } else {
      assert rows[..n] == rows;
    }
  }
}
