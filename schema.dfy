/** The `protocolos` table as values: cells, rows, column declarations, the
    schema a fresh database is created with, and the column reconciliation
    `criar_base_de_dados` runs on an existing database. */
module Schema {
  import opened Text

  /** One SQLite value. `CURRENT_TIMESTAMP` is abstracted to an ordered
      number: `SqlTime(t)` is the moment t. */
  datatype Cell = SqlNull | SqlInt(n: int) | SqlText(s: string) | SqlTime(t: int)

  /** A column as SQLite records it: its name and declared type, the
      declared type including any DEFAULT clause. */
  datatype Column = Column(name: string, decl: string)

  /** A row maps column names to cells; the id is the cell under "id". */
  type Row = map<string, Cell>

  /** The table: its columns in order and its rows in id order. */
  datatype Table = Table(columns: seq<Column>, rows: seq<Row>)

  function Names(columns: seq<Column>): set<string> {
    set i | 0 <= i < |columns| :: columns[i].name
  }

  /** Every row has a cell for exactly the table's columns. */
  predicate RowsFit(t: Table) {
    forall i :: 0 <= i < |t.rows| ==> t.rows[i].Keys == Names(t.columns)
  }

  /** The schema a new database file is created with (app.py:26-52). */
  const FullSchema: seq<Column> := [
    Column("id", "INTEGER PRIMARY KEY AUTOINCREMENT"),
    Column("titulo", "TEXT"),
    Column("subtitulo", "TEXT"),
    Column("duracao", "TEXT"),
    Column("competencias", "TEXT"),
    Column("objetivos", "TEXT"),
    Column("contextualizacao", "TEXT"),
    Column("resumo", "TEXT"),
    Column("materiais", "TEXT"),
    Column("pre_experiencia", "TEXT"),
    Column("procedimento", "TEXT"),
    Column("pos_experiencia", "TEXT"),
    Column("resultados_esperados", "TEXT"),
    Column("seguranca_json", "TEXT"),
    Column("quiz_json", "TEXT"),
    Column("diferenciacao_json", "TEXT"),
    Column("recursos_extras", "TEXT"),
    Column("disciplinas", "TEXT"),
    Column("anos", "TEXT"),
    Column("autor", "TEXT"),
    Column("gostos", "INTEGER DEFAULT 0"),
    Column("nao_gostos", "INTEGER DEFAULT 0"),
    Column("visualizacoes", "INTEGER DEFAULT 0"),
    Column("data_criacao", "TIMESTAMP DEFAULT CURRENT_TIMESTAMP")]

  /** The columns an existing database is brought up to, with their types,
      in the order they are probed (app.py:63-79). */
  const Required: seq<(string, string)> := [
    ("subtitulo", "TEXT"),
    ("duracao", "TEXT"),
    ("competencias", "TEXT"),
    ("objetivos", "TEXT"),
    ("contextualizacao", "TEXT"),
    ("pre_experiencia", "TEXT"),
    ("procedimento", "TEXT"),
    ("pos_experiencia", "TEXT"),
    ("resultados_esperados", "TEXT"),
    ("seguranca_json", "TEXT"),
    ("quiz_json", "TEXT"),
    ("diferenciacao_json", "TEXT"),
    ("recursos_extras", "TEXT"),
    ("visualizacoes", "INTEGER DEFAULT 0"),
    ("data_criacao", "TIMESTAMP")]

  /** The value a column's declaration gives a row that does not supply one:
      0 for `DEFAULT 0`, the current moment for `DEFAULT CURRENT_TIMESTAMP`,
      NULL otherwise. */
  function DeclDefault(decl: string, now: int): (r: Cell)
    ensures !Contains(decl, "DEFAULT") ==> r == SqlNull
  {
    if EndsWith(decl, "DEFAULT 0") then
      assert decl[|decl| - 9..|decl| - 2] == decl[|decl| - 9..][..7];
      ContainsAt(decl, "DEFAULT", |decl| - 9);
      SqlInt(0)
    else if EndsWith(decl, "DEFAULT CURRENT_TIMESTAMP") then
      assert decl[|decl| - 25..|decl| - 18] == decl[|decl| - 25..][..7];
      ContainsAt(decl, "DEFAULT", |decl| - 25);
      SqlTime(now)
    else SqlNull
  }

  /** `tipo.split("DEFAULT")[0].strip()`: the type without its DEFAULT clause. */
  function StripDefault(decl: string): (r: string)
    ensures !Contains(r, "DEFAULT")
  {
    var before := BeforeFirst(decl, "DEFAULT");
    BeforeFirstLacks(decl, "DEFAULT");
    TrimLacks(before, "DEFAULT");
    Trim(before)
  }

  /** Every required column is declared by the full schema. */
  lemma RequiredInFullSchema()
    ensures forall j :: 0 <= j < |Required| ==> Required[j].0 in Names(FullSchema)
  {
    assert Required[0].0 == FullSchema[2].name;
    assert Required[1].0 == FullSchema[3].name;
    assert Required[2].0 == FullSchema[4].name;
    assert Required[3].0 == FullSchema[5].name;
    assert Required[4].0 == FullSchema[6].name;
    assert Required[5].0 == FullSchema[9].name;
    assert Required[6].0 == FullSchema[10].name;
    assert Required[7].0 == FullSchema[11].name;
    assert Required[8].0 == FullSchema[12].name;
    assert Required[9].0 == FullSchema[13].name;
    assert Required[10].0 == FullSchema[14].name;
    assert Required[11].0 == FullSchema[15].name;
    assert Required[12].0 == FullSchema[16].name;
    assert Required[13].0 == FullSchema[22].name;
    assert Required[14].0 == FullSchema[23].name;
  }

  /** The data_criacao backfill never runs for the required columns: the only
      type with a DEFAULT clause is that of visualizacoes, whose name does not
      mention data_criacao. */
  lemma BackfillUnreachable()
    ensures forall j :: 0 <= j < |Required| && Contains(Required[j].1, "DEFAULT") ==>
      !Contains(Required[j].0, "data_criacao")
    ensures forall j :: 0 <= j < |Required| && j != 13 ==> !Contains(Required[j].1, "DEFAULT")
  {
    forall j | 0 <= j < |Required|
      ensures Contains(Required[j].1, "DEFAULT") ==> !Contains(Required[j].0, "data_criacao")
      ensures j != 13 ==> !Contains(Required[j].1, "DEFAULT")
    {
      if j == 13 {
        LacksFirstChar("visualizacoes", "data_criacao");
      } else {
        assert Required[j].1 == "TEXT" || Required[j].1 == "TIMESTAMP";
        LacksFirstChar("TEXT", "DEFAULT");
        LacksFirstChar("TIMESTAMP", "DEFAULT");
      }
    }
  }

  lemma IntegerHasDefault()
    ensures Contains("INTEGER DEFAULT 0", "DEFAULT")
  {
    assert "INTEGER DEFAULT 0"[8..15] == "DEFAULT";
    ContainsAt("INTEGER DEFAULT 0", "DEFAULT", 8);
  }

  /** The clause is stripped: "INTEGER DEFAULT 0" is added as "INTEGER". */
  lemma StripIntegerDefault()
    ensures StripDefault("INTEGER DEFAULT 0") == "INTEGER"
  {
    IntegerBeforeDefault();
    TrimIntegerSpace();
  }

  lemma IntegerBeforeDefault()
    ensures BeforeFirst("INTEGER DEFAULT 0", "DEFAULT") == "INTEGER "
  {
    var decl := "INTEGER DEFAULT 0";
    assert decl[8..15] == "DEFAULT";
    assert forall j :: 0 <= j < 8 ==> decl[j] != 'D';
    BeforeFirstUpTo(decl, "DEFAULT", 8);
  }

  lemma TrimIntegerSpace()
    ensures Trim("INTEGER ") == "INTEGER"
  {
    var s := "INTEGER ";
    assert TrimStart(s) == s;
    assert IsSpace(s[7]);
    assert TrimEnd(s) == TrimEnd(s[..7]);
    assert TrimEnd(s[..7]) == s[..7];
  }

  lemma ViewsNameLacksDataCriacao()
    ensures !Contains("visualizacoes", "data_criacao")
  {
    LacksFirstChar("visualizacoes", "data_criacao");
  }

  lemma IntegerLacksDefault()
    ensures !Contains("INTEGER", "DEFAULT")
  {
    LacksFirstChar("INTEGER", "DEFAULT");
  }
}
