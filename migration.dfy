/** `criar_base_de_dados` on an existing database: each required column is
    probed and, when missing, added with `ALTER TABLE`, its DEFAULT clause
    stripped; a stripped column whose name mentions data_criacao would then
    be backfilled with the current time. */
module Migration {
  import opened Text
  import opened Schema

  /** `ALTER TABLE protocolos ADD COLUMN`: the column goes last and every
      existing row gets the column's default. */
  function AddColumn(t: Table, c: Column, now: int): (r: Table)
    ensures r.columns == t.columns + [c]
    ensures |r.rows| == |t.rows|
    ensures forall i :: 0 <= i < |t.rows| ==> r.rows[i] == t.rows[i][c.name := DeclDefault(c.decl, now)]
  {
    Table(t.columns + [c], seq(|t.rows|, i requires 0 <= i < |t.rows| => t.rows[i][c.name := DeclDefault(c.decl, now)]))
  }

  /** `UPDATE protocolos SET name = CURRENT_TIMESTAMP WHERE name IS NULL`. */
  function Backfill(t: Table, name: string, now: int): (r: Table)
    ensures r.columns == t.columns && |r.rows| == |t.rows|
    ensures forall i :: 0 <= i < |t.rows| ==>
      r.rows[i] == if name in t.rows[i] && t.rows[i][name] == SqlNull then t.rows[i][name := SqlTime(now)] else t.rows[i]
  {
    Table(t.columns, seq(|t.rows|, i requires 0 <= i < |t.rows| =>
      if name in t.rows[i] && t.rows[i][name] == SqlNull then t.rows[i][name := SqlTime(now)] else t.rows[i]))
  }

  /** The column a missing required column is added as: its DEFAULT clause,
      if any, stripped from its type. */
  function NewColumn(c: (string, string)): (r: Column)
    ensures r.name == c.0
  {
    if Contains(c.1, "DEFAULT") then Column(c.0, StripDefault(c.1)) else Column(c.0, c.1)
  }

  /** The added column is backfilled: its type had a DEFAULT clause and its
      name mentions data_criacao. */
  predicate Backfilled(c: (string, string)) {
    Contains(c.1, "DEFAULT") && Contains(c.0, "data_criacao")
  }

  /** Adding a missing column, then backfilling it when asked to. */
  function Extend(t: Table, col: Column, backfill: bool, now: int): Table {
    var added := AddColumn(t, col, now);
    if backfill then Backfill(added, col.name, now) else added
  }

  /** One pass of the loop body: a column that can be selected is left alone;
      a missing one is added, with any DEFAULT clause stripped from its type,
      and a stripped column whose name mentions "data_criacao" is backfilled. */
  function Step(t: Table, c: (string, string), now: int): (r: Table)
    ensures c.0 in Names(t.columns) ==> r == t
    ensures c.0 !in Names(t.columns) ==> r.columns == t.columns + [NewColumn(c)]
    ensures |r.rows| == |t.rows|
  {
    if c.0 in Names(t.columns) then t
    else Extend(t, NewColumn(c), Backfilled(c), now)
  }

  /** The loop over a list of required columns, from the first to the last. */
  function MigrateAll(t: Table, cs: seq<(string, string)>, now: int): (r: Table)
    ensures |r.rows| == |t.rows|
    ensures |t.columns| <= |r.columns| <= |t.columns| + |cs|
    ensures r.columns[..|t.columns|] == t.columns
  {
    if cs == [] then t
    else
      var before := MigrateAll(t, cs[..|cs| - 1], now);
      var r := Step(before, cs[|cs| - 1], now);
      assert r.columns[..|before.columns|] == before.columns;
      assert r.columns[..|t.columns|] == before.columns[..|t.columns|];
      r
  }

  /** One step adds at most the one column, keeps every existing column in
      place, and keeps every existing cell. */
  lemma StepExtends(t: Table, c: (string, string), now: int)
    requires RowsFit(t)
    ensures var r := Step(t, c, now);
      && RowsFit(r)
      && Names(r.columns) == Names(t.columns) + {c.0}
      && |r.columns| >= |t.columns| && r.columns[..|t.columns|] == t.columns
      && (c.0 in Names(t.columns) ==> r == t)
      && |r.rows| == |t.rows|
      && (forall i :: 0 <= i < |t.rows| ==> r.rows[i].Keys == t.rows[i].Keys + {c.0})
      && forall i, k :: 0 <= i < |t.rows| && k in t.rows[i] ==> r.rows[i][k] == t.rows[i][k]
  {
    StepNames(t, c, now);
    if c.0 !in Names(t.columns) {
      var col := NewColumn(c);
      ExtendColumns(t, col, Backfilled(c), now);
      ExtendCells(t, col, Backfilled(c), now);
      assert (t.columns + [col])[..|t.columns|] == t.columns;
    } else {
      assert forall i :: 0 <= i < |t.rows| ==> c.0 in t.rows[i];
    }
  }

  /** Extending puts the new column last and keeps the number of rows. */
  lemma ExtendColumns(t: Table, col: Column, backfill: bool, now: int)
    ensures var r := Extend(t, col, backfill, now);
      r.columns == t.columns + [col] && |r.rows| == |t.rows|
  {
  }

  /** Extending gives every row one more cell and keeps the others. */
  lemma ExtendCells(t: Table, col: Column, backfill: bool, now: int)
    requires RowsFit(t) && col.name !in Names(t.columns)
    ensures var r := Extend(t, col, backfill, now);
      && |r.rows| == |t.rows|
      && (forall i :: 0 <= i < |t.rows| ==> r.rows[i].Keys == t.rows[i].Keys + {col.name})
      && forall i, k :: 0 <= i < |t.rows| && k in t.rows[i] ==> r.rows[i][k] == t.rows[i][k]
  {
    var added := AddColumn(t, col, now);
    if backfill {
      var r := Backfill(added, col.name, now);
      forall i, k | 0 <= i < |t.rows| && k in t.rows[i]
        ensures r.rows[i][k] == t.rows[i][k]
      {
        assert k != col.name by {
          assert t.rows[i].Keys == Names(t.columns);
        }
      }
    }
  }

  /** One step adds exactly the column it probes, when it is missing. */
  lemma StepNames(t: Table, c: (string, string), now: int)
    ensures Names(Step(t, c, now).columns) == Names(t.columns) + {c.0}
  {
    if c.0 !in Names(t.columns) {
      ExtendColumns(t, NewColumn(c), Backfilled(c), now);
      NamesSnoc(t.columns, NewColumn(c));
    }
  }

  /** The names of one more column. */
  lemma NamesSnoc(columns: seq<Column>, col: Column)
    ensures Names(columns + [col]) == Names(columns) + {col.name}
  {
    var all := columns + [col];
    forall n | n in Names(all) ensures n in Names(columns) + {col.name} {
      var i :| 0 <= i < |all| && all[i].name == n;
      if i < |columns| {
        assert all[i] == columns[i];
      }
    }
    forall n | n in Names(columns) ensures n in Names(all) {
      var i :| 0 <= i < |columns| && columns[i].name == n;
      assert all[i] == columns[i];
    }
    assert all[|columns|] == col;
  }

  /** After the loop every required column is present; no column was removed,
      renamed or reordered; and every cell that existed keeps its value. */
  lemma {:induction false} MigrateExtends(t: Table, cs: seq<(string, string)>, now: int)
    requires RowsFit(t)
    ensures var r := MigrateAll(t, cs, now);
      && RowsFit(r)
      && (forall j :: 0 <= j < |cs| ==> cs[j].0 in Names(r.columns))
      && |r.columns| >= |t.columns| && r.columns[..|t.columns|] == t.columns
      && |r.rows| == |t.rows|
      && forall i, k :: 0 <= i < |t.rows| && k in t.rows[i] ==> r.rows[i][k] == t.rows[i][k]
  {
    if cs != [] {
      var prefix := cs[..|cs| - 1];
      var mid := MigrateAll(t, prefix, now);
      MigrateExtends(t, prefix, now);
      StepExtends(mid, cs[|cs| - 1], now);
      var r := Step(mid, cs[|cs| - 1], now);
      assert r.columns[..|t.columns|] == mid.columns[..|mid.columns|][..|t.columns|];
      forall j | 0 <= j < |cs| ensures cs[j].0 in Names(r.columns) {
        if j < |cs| - 1 {
          assert cs[j] == prefix[j];
          var m :| 0 <= m < |mid.columns| && mid.columns[m].name == cs[j].0;
          assert r.columns[m] == mid.columns[m];
        }
      }
    }
  }

  /** Running the loop over columns that are all present changes nothing. */
  lemma {:induction false} MigratePresent(t: Table, cs: seq<(string, string)>, now: int)
    requires forall j :: 0 <= j < |cs| ==> cs[j].0 in Names(t.columns)
    ensures MigrateAll(t, cs, now) == t
  {
    if cs != [] {
      MigratePresent(t, cs[..|cs| - 1], now);
    }
  }

  /** A second run adds nothing and changes nothing, whatever its clock. */
  lemma MigrateIdempotent(t: Table, cs: seq<(string, string)>, now: int, later: int)
    requires RowsFit(t)
    ensures MigrateAll(MigrateAll(t, cs, now), cs, later) == MigrateAll(t, cs, now)
  {
    MigrateExtends(t, cs, now);
    MigratePresent(MigrateAll(t, cs, now), cs, later);
  }

  /** The names a list of required columns mentions. */
  function Mentioned(cs: seq<(string, string)>): set<string> {
    set j | 0 <= j < |cs| :: cs[j].0
  }

  /** The loop adds only columns it was asked for. */
  lemma {:induction false} MigrateAddsOnlyMentioned(t: Table, cs: seq<(string, string)>, now: int)
    ensures Names(MigrateAll(t, cs, now).columns) <= Names(t.columns) + Mentioned(cs)
  {
    if cs != [] {
      var prefix := cs[..|cs| - 1];
      MigrateAddsOnlyMentioned(t, prefix, now);
      assert Mentioned(prefix) <= Mentioned(cs) by {
        forall n | n in Mentioned(prefix) ensures n in Mentioned(cs) {
          var j :| 0 <= j < |prefix| && prefix[j].0 == n;
          assert cs[j] == prefix[j];
        }
      }
      var mid := MigrateAll(t, prefix, now);
      StepNames(mid, cs[|cs| - 1], now);
      assert cs[|cs| - 1].0 in Mentioned(cs);
    }
  }

  /** On an existing database without a view counter, reconciliation adds
      visualizacoes as a plain "INTEGER" column, so every row already there
      holds NULL in it, not 0. */
  lemma MigratedViewsStartNull(t: Table, now: int)
    requires RowsFit(t) && "visualizacoes" !in Names(t.columns)
    ensures var r := MigrateAll(t, Required, now);
      && Column("visualizacoes", "INTEGER") in r.columns
      && forall i :: 0 <= i < |r.rows| ==> "visualizacoes" in r.rows[i] && r.rows[i]["visualizacoes"] == SqlNull
  {
    var first, last := RequiredSplit();
    ViewsProbedBetween(t, first, last, now);
  }

  /** The same for any list that probes visualizacoes, declared
      "INTEGER DEFAULT 0", after columns of other names and before one more. */
  lemma ViewsProbedBetween(t: Table, first: seq<(string, string)>, last: (string, string), now: int)
    requires RowsFit(t) && "visualizacoes" !in Names(t.columns)
    requires "visualizacoes" !in Mentioned(first)
    ensures var r := MigrateAll(t, first + [("visualizacoes", "INTEGER DEFAULT 0")] + [last], now);
      && Column("visualizacoes", "INTEGER") in r.columns
      && forall i :: 0 <= i < |r.rows| ==> "visualizacoes" in r.rows[i] && r.rows[i]["visualizacoes"] == SqlNull
  {
    var t13 := MigrateAll(t, first, now);
    MigrateAddsOnlyMentioned(t, first, now);
    MigrateExtends(t, first, now);
    var views := ("visualizacoes", "INTEGER DEFAULT 0");
    ViewsStep(t13, now);
    var t14 := Step(t13, views, now);
    StepExtends(t13, views, now);
    StepExtends(t14, last, now);
    var r := Step(t14, last, now);
    MigrateSnoc(t, first, views, now);
    MigrateSnoc(t, first + [views], last, now);
    assert MigrateAll(t, first + [views] + [last], now) == r;
    assert Column("visualizacoes", "INTEGER") in r.columns by {
      assert r.columns[..|t14.columns|] == t14.columns;
      assert r.columns[|t13.columns|] == t14.columns[|t13.columns|];
    }
    assert forall i :: 0 <= i < |r.rows| ==> "visualizacoes" in r.rows[i] && r.rows[i]["visualizacoes"] == SqlNull by {
      forall i | 0 <= i < |r.rows| ensures "visualizacoes" in r.rows[i] && r.rows[i]["visualizacoes"] == SqlNull {
        assert "visualizacoes" in t14.rows[i];
      }
    }
  }

  /** The loop over one more column is one more step. */
  lemma MigrateSnoc(t: Table, cs: seq<(string, string)>, c: (string, string), now: int)
    ensures MigrateAll(t, cs + [c], now) == Step(MigrateAll(t, cs, now), c, now)
  {
    assert (cs + [c])[..|cs|] == cs;
  }

  /** The required list is the thirteen text columns, then visualizacoes,
      then data_criacao. */
  lemma RequiredSplit() returns (first: seq<(string, string)>, last: (string, string))
    ensures Required == first + [("visualizacoes", "INTEGER DEFAULT 0")] + [last]
    ensures "visualizacoes" !in Mentioned(first)
    ensures last.0 == "data_criacao"
  {
    first := Required[..13];
    last := Required[14];
    assert Required == first + [Required[13]] + [last];
    forall n | n in Mentioned(first) ensures n != "visualizacoes" {
      var j :| 0 <= j < |first| && first[j].0 == n;
      assert first[j].1 == "TEXT";
    }
  }

  /** The probe for visualizacoes on a table without it adds the column as
      "INTEGER", giving every row NULL. */
  lemma ViewsStep(t: Table, now: int)
    requires "visualizacoes" !in Names(t.columns)
    ensures var r := Step(t, ("visualizacoes", "INTEGER DEFAULT 0"), now);
      && r == AddColumn(t, Column("visualizacoes", "INTEGER"), now)
      && forall i :: 0 <= i < |r.rows| ==> r.rows[i]["visualizacoes"] == SqlNull
  {
    ViewsStepAdds(t, now);
    AddIntegerGivesNull(t, "visualizacoes", now);
  }

  lemma ViewsStepAdds(t: Table, now: int)
    requires "visualizacoes" !in Names(t.columns)
    ensures Step(t, ("visualizacoes", "INTEGER DEFAULT 0"), now) == AddColumn(t, Column("visualizacoes", "INTEGER"), now)
  {
    IntegerHasDefault();
    StripIntegerDefault();
    ViewsNameLacksDataCriacao();
  }

  /** A column declared plain "INTEGER" starts out NULL in every row. */
  lemma AddIntegerGivesNull(t: Table, name: string, now: int)
    ensures var r := AddColumn(t, Column(name, "INTEGER"), now);
      forall i :: 0 <= i < |r.rows| ==> r.rows[i][name] == SqlNull
  {
    IntegerLacksDefault();
  }

  /** A database created with the full schema already has every required
      column, so reconciling it changes nothing. */
  lemma FullSchemaNeedsNothing(rows: seq<Row>, now: int)
    ensures MigrateAll(Table(FullSchema, rows), Required, now) == Table(FullSchema, rows)
  {
    RequiredInFullSchema();
    MigratePresent(Table(FullSchema, rows), Required, now);
  }

}
