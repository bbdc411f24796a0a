/** The pure side of the read queries: the search filter, the sort keys of
    the ORDER BY clauses, the view sum, and the discipline frequency that
    `Counter(...).most_common()` computes. */
module Queries {
  import opened Wrappers
  import opened Faults
  import opened Text
  import opened JsonModel
  import opened Schema
  import opened Coercion
  import opened Ordering

  /** `cell LIKE '%q%'` for a query q without wildcard characters: ASCII
      case-insensitive containment. NULL matches nothing; an integer is
      matched through its decimal text. */
  predicate Like(c: Cell, q: string)
    ensures q == [] ==> (Like(c, q) <==> c.SqlText? || c.SqlInt?)
    ensures c.SqlNull? ==> !Like(c, q)
  {
    match c
    case SqlText(s) => Contains(AsciiLower(s), AsciiLower(q))
    case SqlInt(n) => Contains(AsciiLower(IntToString(n)), AsciiLower(q))
    case _ => false
  }

  /** The WHERE clause of `search_protocols`. */
  predicate Matches(r: Row, q: string)
    ensures Matches(r, q) ==> "titulo" in r || "resumo" in r || "autor" in r
    ensures q == [] && "titulo" in r && r["titulo"].SqlText? ==> Matches(r, q)
  {
    || ("titulo" in r && Like(r["titulo"], q))
    || ("resumo" in r && Like(r["resumo"], q))
    || ("autor" in r && Like(r["autor"], q))
  }

  /** The rows that match, in table order. */
  function Filter(rows: seq<Row>, q: string): (r: seq<Row>)
    ensures forall i :: 0 <= i < |r| ==> Matches(r[i], q)
    ensures forall x :: x in r <==> x in rows && Matches(x, q)
    ensures |r| <= |rows|
  {
    if rows == [] then []
    else (if Matches(rows[0], q) then [rows[0]] else []) + Filter(rows[1..], q)
  }

  /** The sort key of one cell: NULL sorts lowest. */
  function CellKey(r: Row, column: string): Key {
    if column !in r then Low
    else match r[column]
      case SqlInt(n) => At(n)
      case SqlTime(t) => At(t)
      case _ => Low
  }

  /** `ORDER BY data_criacao DESC`. */
  function DateRank(r: Row): Rank {
    Rank(CellKey(r, "data_criacao"), Low)
  }

  /** `ORDER BY gostos DESC, visualizacoes DESC`. */
  function PopularRank(r: Row): Rank {
    Rank(CellKey(r, "gostos"), CellKey(r, "visualizacoes"))
  }

  /** The matching rows, newest first. */
  function SearchOrder(rows: seq<Row>, q: string): (r: seq<Row>)
    ensures SortedDesc(r, DateRank)
    ensures forall x :: x in r <==> x in rows && Matches(x, q)
    ensures multiset(r) == multiset(Filter(rows, q))
  {
    var found := Filter(rows, q);
    var sorted := Sort(found, DateRank);
    assert forall x :: x in sorted <==> x in multiset(sorted);
    assert forall x :: x in found <==> x in multiset(found);
    sorted
  }

  /** A query no row matches yields no rows. */
  lemma SearchNoMatch(rows: seq<Row>, q: string)
    requires forall i :: 0 <= i < |rows| ==> !Matches(rows[i], q)
    ensures SearchOrder(rows, q) == []
  {
    FilterNone(rows, q);
  }

  lemma {:induction false} FilterNone(rows: seq<Row>, q: string)
    requires forall i :: 0 <= i < |rows| ==> !Matches(rows[i], q)
    ensures Filter(rows, q) == []
  {
    if rows != [] {
      FilterNone(rows[1..], q);
    }
  }

  /** Case does not matter for ASCII letters: a text matches every query
      that spells one of its pieces in any ASCII case. */
  lemma LikeIgnoresAsciiCase(pre: string, piece: string, post: string, q: string)
    requires AsciiLower(piece) == AsciiLower(q)
    ensures Like(SqlText(pre + piece + post), q)
  {
    AsciiLowerAppend(pre, piece);
    AsciiLowerAppend(pre + piece, post);
    var lower := AsciiLower(pre + piece + post);
    assert lower == AsciiLower(pre) + AsciiLower(q) + AsciiLower(post);
    assert lower[|pre|..|pre| + |q|] == AsciiLower(q);
    ContainsAt(lower, AsciiLower(q), |pre|);
  }

  /** Lower-casing works character by character, so it distributes over
      concatenation. */
  lemma {:induction false} AsciiLowerAppend(a: string, b: string)
    ensures AsciiLower(a + b) == AsciiLower(a) + AsciiLower(b)
  {
    if a != [] {
      assert (a + b)[1..] == a[1..] + b;
      AsciiLowerAppend(a[1..], b);
    } else {
      assert a + b == b;
    }
  }

  /** Two spellings of a query, or of a cell's text, that differ only in
      ASCII case match alike. */
  lemma LikeSameSpelling(s: string, s': string, q: string, q': string)
    requires AsciiLower(s) == AsciiLower(s') && AsciiLower(q) == AsciiLower(q')
    ensures Like(SqlText(s), q) <==> Like(SqlText(s'), q')
  {
  }

  /** A search hit: the row with its two lists decoded. */
  datatype Hit = Hit(row: Row, disciplinas: Json, anos: Json)

  /** One of the two list columns of a row does not decode. */
  predicate Fails(h: Host, row: Row) {
    HardDecode(h, row, "disciplinas").Err? || HardDecode(h, row, "anos").Err?
  }

  /** The hits for a sequence of rows, failing on the first row whose lists
      do not decode (the handler has no `try` around them). */
  function Hits(h: Host, rows: seq<Row>): (r: Result<seq<Hit>, Fault>)
    ensures r.Ok? ==> |r.value| == |rows|
    ensures r.Ok? ==> forall i :: 0 <= i < |rows| ==>
      && r.value[i].row == rows[i]
      && HardDecode(h, rows[i], "disciplinas") == Ok(r.value[i].disciplinas)
      && HardDecode(h, rows[i], "anos") == Ok(r.value[i].anos)
    ensures r.Err? <==> (exists i :: 0 <= i < |rows| && Fails(h, rows[i]))
    ensures r.Err? ==> r.error == ServerError
  {
    if rows == [] then Ok([])
    else
      var prefix := Hits(h, rows[..|rows| - 1]);
      var last := rows[|rows| - 1];
      var d := HardDecode(h, last, "disciplinas");
      var a := HardDecode(h, last, "anos");
      assert forall i :: 0 <= i < |rows| - 1 ==> rows[..|rows| - 1][i] == rows[i];
      if prefix.Err? then Err(ServerError)
      else if d.Err? || a.Err? then Err(ServerError)
      else Ok(prefix.value + [Hit(last, d.value, a.value)])
  }

  /** `SUM(visualizacoes)`, with NULL for no numbers at all. */
  function SumViews(rows: seq<Row>): Option<int> {
    if rows == [] then None
    else
      var rest := SumViews(rows[..|rows| - 1]);
      var last := rows[|rows| - 1];
      if "visualizacoes" in last && last["visualizacoes"].SqlInt? then
        Some(rest.GetOr(0) + last["visualizacoes"].n)
      else rest
  }

  /** `SUM(visualizacoes) or 0`. */
  function TotalViews(rows: seq<Row>): (r: int)
    ensures rows == [] ==> r == 0
  {
    SumViews(rows).GetOr(0)
  }

  /** The total grows by exactly the views of a row added last. */
  lemma TotalViewsAppend(rows: seq<Row>, r: Row)
    ensures TotalViews(rows + [r]) ==
      TotalViews(rows) + if "visualizacoes" in r && r["visualizacoes"].SqlInt? then r["visualizacoes"].n else 0
  {
    assert (rows + [r])[..|rows|] == rows;
  }

  /** Only numbers count: rows whose counter is NULL add nothing. */
  lemma TotalViewsAllNull(rows: seq<Row>)
    requires forall i :: 0 <= i < |rows| ==> "visualizacoes" in rows[i] && rows[i]["visualizacoes"] == SqlNull
    ensures TotalViews(rows) == 0
  {
    if rows != [] {
      var prefix := rows[..|rows| - 1];
      assert forall i :: 0 <= i < |prefix| ==> prefix[i] == rows[i];
      TotalViewsAllNull(prefix);
    }
  }

  /** The columns `dict(row)` keeps for one entry of a listing. */
  function Project(r: Row, columns: set<string>): (p: Row)
    ensures p.Keys == r.Keys * columns
    ensures forall k :: k in p ==> p[k] == r[k]
  {
    map k | k in r.Keys * columns :: r[k]
  }

  const PopularColumns: set<string> := {"id", "titulo", "autor", "gostos", "visualizacoes"}
  const LatestColumns: set<string> := {"id", "titulo", "autor", "data_criacao"}

  function ProjectAll(rows: seq<Row>, columns: set<string>): (r: seq<Row>)
    ensures |r| == |rows|
    ensures forall i :: 0 <= i < |rows| ==> r[i] == Project(rows[i], columns)
  {
    seq(|rows|, i requires 0 <= i < |rows| => Project(rows[i], columns))
  }

  /** What `list.extend` adds for one decoded value: a list's items, a
      text's characters, a dict's keys; anything else is not iterable. */
  function Elements(j: Json): (r: Option<seq<Json>>)
    ensures r.Some? <==> j.Arr? || j.Str? || j.Obj?
    ensures j.Arr? ==> r == Some(j.items)
    ensures j.Str? ==> |r.value| == |j.s| && forall i :: 0 <= i < |j.s| ==> r.value[i] == Str([j.s[i]])
    ensures j.Obj? ==> |r.value| == |j.fields| && forall i :: 0 <= i < |j.fields| ==> r.value[i] == Str(j.fields[i].0)
  {
    match j
    case Arr(items) => Some(items)
    case Str(s) => Some(seq(|s|, i requires 0 <= i < |s| => Str([s[i]])))
    case Obj(fields) => Some(seq(|fields|, i requires 0 <= i < |fields| => Str(fields[i].0)))
    case _ => None
  }

  /** `todas_disciplinas` after the loop over a sequence of rows, or the
      first failure: a row whose disciplinas does not decode, or decodes to
      something not iterable. */
  function AllDisciplines(h: Host, rows: seq<Row>): (r: Result<seq<Json>, Fault>)
    ensures r.Err? ==> r.error == ServerError
    ensures r.Ok? <==> forall i :: 0 <= i < |rows| ==>
      HardDecode(h, rows[i], "disciplinas").Ok? && Elements(HardDecode(h, rows[i], "disciplinas").value).Some?
  {
    if rows == [] then Ok([])
    else
      var acc := AllDisciplines(h, rows[..|rows| - 1]);
      assert forall i :: 0 <= i < |rows| - 1 ==> rows[..|rows| - 1][i] == rows[i];
      var d := HardDecode(h, rows[|rows| - 1], "disciplinas");
      if acc.Err? || d.Err? || Elements(d.value).None? then Err(ServerError)
      else Ok(acc.value + Elements(d.value).value)
  }

  /** The distinct values of s in the order they first occur: the key order
      of a `Counter` built from s. */
  function FirstSeen(s: seq<Json>): (r: seq<Json>)
    ensures forall i, j :: 0 <= i < j < |r| ==> r[i] != r[j]
    ensures forall x :: x in r <==> x in s
  {
    if s == [] then []
    else
      var r := FirstSeen(s[..|s| - 1]);
      assert forall x :: x in s <==> x in s[..|s| - 1] || x == s[|s| - 1] by {
        assert s == s[..|s| - 1] + [s[|s| - 1]];
      }
      if s[|s| - 1] in r then r else r + [s[|s| - 1]]
  }

  /** A value can be counted when Python can hash it. */
  predicate Hashable(j: Json) {
    !j.Arr? && !j.Obj?
  }

  /** The `Counter`: each distinct value with its number of occurrences, in
      first-seen order. */
  function Tally(s: seq<Json>): (r: seq<(Json, nat)>)
    ensures |r| == |FirstSeen(s)|
    ensures forall i :: 0 <= i < |r| ==> r[i] == (FirstSeen(s)[i], multiset(s)[FirstSeen(s)[i]])
  {
    var keys := FirstSeen(s);
    seq(|keys|, i requires 0 <= i < |keys| => (keys[i], multiset(s)[keys[i]]))
  }

  function CountRank(e: (Json, nat)): Rank {
    Rank(At(e.1), Low)
  }

  /** `Counter(s).most_common()`, or an error when some value is unhashable. */
  function MostCommon(s: seq<Json>): (r: Result<seq<(Json, nat)>, Fault>)
    ensures r.Ok? <==> forall i :: 0 <= i < |s| ==> Hashable(s[i])
    ensures r.Ok? ==> r.value == Sort(Tally(s), CountRank)
    ensures r.Err? ==> r.error == ServerError
  {
    if forall i :: 0 <= i < |s| ==> Hashable(s[i]) then Ok(Sort(Tally(s), CountRank))
    else Err(ServerError)
  }

  /** The frequency list counts every occurrence: each value of s appears in
      it exactly once, with its number of occurrences in s, and nothing else
      appears. */
  lemma MostCommonCounts(s: seq<Json>, x: Json)
    ensures var r := Sort(Tally(s), CountRank);
      && (x in s ==> (x, multiset(s)[x]) in r)
      && (forall e :: e in r ==> e.0 in s && e.1 == multiset(s)[e.0] && multiset(r)[e] == 1)
  {
    var t := Tally(s);
    var r := Sort(t, CountRank);
    var keys := FirstSeen(s);
    assert forall e :: e in r <==> e in t by {
      assert forall e :: e in r <==> e in multiset(r);
      assert forall e :: e in t <==> e in multiset(t);
    }
    if x in s {
      var i :| 0 <= i < |keys| && keys[i] == x;
      assert t[i] == (x, multiset(s)[x]);
    }
    forall e | e in r ensures e.0 in s && e.1 == multiset(s)[e.0] && multiset(r)[e] == 1 {
      var i :| 0 <= i < |t| && t[i] == e;
      TallyOnce(s, i);
    }
  }

  /** Each entry of the tally occurs in it once. */
  lemma TallyOnce(s: seq<Json>, i: nat)
    requires i < |Tally(s)|
    ensures multiset(Tally(s))[Tally(s)[i]] == 1
  {
    var t := Tally(s);
    var keys := FirstSeen(s);
    DistinctOnce(t, i);
  }

  /** An element of a sequence whose entries have distinct first components
      occurs once. */
  lemma {:induction false} DistinctOnce(t: seq<(Json, nat)>, i: nat)
    requires i < |t|
    requires forall a, b :: 0 <= a < b < |t| ==> t[a].0 != t[b].0
    ensures multiset(t)[t[i]] == 1
  {
    var e := t[i];
    if |t| == 1 {
    } else if i == |t| - 1 {
      var prefix := t[..|t| - 1];
      assert t == prefix + [e];
      assert e !in prefix by {
        forall a | 0 <= a < |prefix| ensures prefix[a] != e {
          assert prefix[a] == t[a];
        }
      }
    } else {
      var prefix := t[..|t| - 1];
      assert t == prefix + [t[|t| - 1]];
      assert prefix[i] == e;
      DistinctOnce(prefix, i);
      assert t[|t| - 1] != e;
    }
  }

  /** Counts are listed highest first, and values with the same count keep
      their first-seen order. */
  lemma MostCommonOrder(s: seq<Json>, n: nat)
    ensures SortedDesc(Sort(Tally(s), CountRank), CountRank)
    ensures Having(Sort(Tally(s), CountRank), CountRank, Rank(At(n), Low)) ==
      Having(Tally(s), CountRank, Rank(At(n), Low))
  {
    SortStable(Tally(s), CountRank, Rank(At(n), Low));
  }

  /** Two protocols naming Física and one naming Química give Física twice,
      then Química once. */
  lemma MostCommonExample()
    ensures MostCommon([Str("Física"), Str("Física"), Str("Química")]) ==
      Ok([(Str("Física"), 2), (Str("Química"), 1)])
  {
    var f, q := Str("Física"), Str("Química");
    TallyExample(f, q);
    SortTwo((f, 2), (q, 1));
    MostCommonOf([f, f, q]);
  }

  /** Values counted equally keep the order they were first seen in. */
  lemma MostCommonTieExample()
    ensures MostCommon([Str("Química"), Str("Física")]) ==
      Ok([(Str("Química"), 1), (Str("Física"), 1)])
  {
    var f, q := Str("Física"), Str("Química");
    TallyTieExample(f, q);
    SortTwo((q, 1), (f, 1));
    MostCommonOf([q, f]);
  }

  /** Of text values only, the frequency list is the sorted tally. */
  lemma MostCommonOf(s: seq<Json>)
    requires forall i :: 0 <= i < |s| ==> s[i].Str?
    ensures MostCommon(s) == Ok(Sort(Tally(s), CountRank))
  {
  }

  /** Two entries already in descending order of count stay as they are. */
  lemma SortTwo(a: (Json, nat), b: (Json, nat))
    requires a.1 >= b.1
    ensures Sort([a, b], CountRank) == [a, b]
  {
    assert [a, b][1..] == [b];
    assert Sort([b], CountRank) == [b];
  }

  lemma TallyExample(f: Json, q: Json)
    requires f == Str("Física") && q == Str("Química")
    ensures Tally([f, f, q]) == [(f, 2), (q, 1)]
  {
    var s := [f, f, q];
    FirstSeenExample(f, q);
    assert multiset(s)[f] == 2 && multiset(s)[q] == 1 by {
      assert f != q;
      assert multiset(s) == multiset{f, f, q};
    }
    var r := Tally(s);
    assert |r| == 2;
    assert r[0] == (f, 2) && r[1] == (q, 1);
  }

  lemma FirstSeenExample(f: Json, q: Json)
    requires f != q
    ensures FirstSeen([f, f, q]) == [f, q]
  {
    FirstSeenRepeat(f);
    FirstSeenSnoc([f, f], q);
    assert [f, f] + [q] == [f, f, q];
  }

  lemma FirstSeenRepeat(f: Json)
    ensures FirstSeen([f, f]) == [f]
  {
    FirstSeenSingle(f);
    FirstSeenSnoc([f], f);
    assert [f] + [f] == [f, f];
  }

  lemma FirstSeenSingle(f: Json)
    ensures FirstSeen([f]) == [f]
  {
    FirstSeenSnoc([], f);
    assert [] + [f] == [f];
  }

  /** One more value is listed after the others when it has not been seen. */
  lemma FirstSeenSnoc(s: seq<Json>, x: Json)
    ensures FirstSeen(s + [x]) == if x in s then FirstSeen(s) else FirstSeen(s) + [x]
  {
    assert (s + [x])[..|s|] == s;
  }

  lemma TallyTieExample(f: Json, q: Json)
    requires f == Str("Física") && q == Str("Química")
    ensures Tally([q, f]) == [(q, 1), (f, 1)]
  {
    var s := [q, f];
    assert FirstSeen(s) == [q, f] by {
      assert s[..1] == [q];
      assert FirstSeen([q]) == [q] by {
        assert [q][..0] == [];
      }
    }
    assert multiset(s)[f] == 1 && multiset(s)[q] == 1 by {
      assert f != q;
    }
  }
}
