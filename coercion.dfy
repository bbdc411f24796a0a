/** Between a protocol draft and a table row: `to_string` and the values
    `save_protocol` inserts, and the decoding `ver_protocolo` and
    `search_protocols` apply to a stored row. */
module Coercion {
  import opened Wrappers
  import opened Faults
  import opened Text
  import opened JsonModel
  import opened Schema

  /** `str(v)`: Python's text form of a value. Lists and dicts print through
      the host's `repr`. */
  function PyStr(h: Host, v: Json): (r: string)
    ensures v.Str? ==> r == v.s
  {
    match v
    case Null => "None"
    case Bool(b) => if b then "True" else "False"
    case Int(n) => IntToString(n)
    case Str(s) => s
    case _ => h.repr(v)
  }

  /** `to_string`: a list becomes the text forms of its elements, one per
      line; any other falsy value becomes ""; anything else its text form. */
  function ToStorageText(h: Host, v: Json): (r: string)
    ensures v == Arr([]) ==> r == ""
    ensures !v.Arr? && !Truthy(v) ==> r == ""
    ensures v.Str? ==> r == v.s
    ensures v.Arr? && |v.items| == 1 && v.items[0].Str? ==> r == v.items[0].s
  {
    if v.Arr? then JoinLines(seq(|v.items|, i requires 0 <= i < |v.items| => PyStr(h, v.items[i])))
    else if Truthy(v) then PyStr(h, v)
    else ""
  }

  /** The texts of a list of texts. */
  function Texts(items: seq<Json>): seq<string>
    requires forall i :: 0 <= i < |items| ==> items[i].Str?
  {
    seq(|items|, i requires 0 <= i < |items| => items[i].s)
  }

  /** A list of texts is stored as those texts joined by line breaks. */
  lemma ListJoined(h: Host, items: seq<Json>)
    requires forall i :: 0 <= i < |items| ==> items[i].Str?
    ensures ToStorageText(h, Arr(items)) == JoinLines(Texts(items))
  {
    assert seq(|items|, i requires 0 <= i < |items| => PyStr(h, items[i])) == Texts(items);
  }

  /** Splitting the stored text on line breaks gives the list back, when the
      list is not empty and none of its texts holds a line break. */
  lemma ListRecoverable(h: Host, items: seq<Json>)
    requires items != [] && forall i :: 0 <= i < |items| ==> items[i].Str? && '\n' !in items[i].s
    ensures SplitLines(ToStorageText(h, Arr(items))) == Texts(items)
  {
    ListJoined(h, items);
    SplitJoinLines(Texts(items));
  }

  /** Flattening is lossy: a text holding a line break is stored exactly as
      two separate texts are. */
  lemma FlatteningLossy(h: Host)
    ensures ToStorageText(h, Arr([Str("a\nb")])) == ToStorageText(h, Arr([Str("a"), Str("b")]))
  {
    ListJoined(h, [Str("a\nb")]);
    ListJoined(h, [Str("a"), Str("b")]);
    assert Texts([Str("a"), Str("b")]) == ["a", "b"];
  }

  /** The examples: ["a", "b"] is stored as "a\nb", and [] as "". */
  lemma ListExamples(h: Host)
    ensures ToStorageText(h, Arr([Str("a"), Str("b")])) == "a\nb"
    ensures ToStorageText(h, Arr([])) == ""
  {
    ListJoined(h, [Str("a"), Str("b")]);
    assert Texts([Str("a"), Str("b")]) == ["a", "b"];
  }

  /** A falsy value that is not a list (None, False, 0, "", {}) is stored as
      "", a non-empty text as itself, and any other value as its text form. */
  lemma ScalarStored(h: Host, v: Json)
    requires !v.Arr?
    ensures !Truthy(v) ==> ToStorageText(h, v) == ""
    ensures Truthy(v) ==> ToStorageText(h, v) == PyStr(h, v)
    ensures v.Str? ==> ToStorageText(h, v) == v.s
  {
  }

  /** The free-text columns, which go through `to_string`. */
  const TextColumns: seq<string> := [
    "titulo", "subtitulo", "duracao", "competencias", "objetivos",
    "contextualizacao", "resumo", "materiais", "pre_experiencia",
    "procedimento", "pos_experiencia", "resultados_esperados",
    "recursos_extras", "autor"]

  /** The columns the insert names, in its order. */
  const InsertColumns: seq<string> := [
    "titulo", "subtitulo", "duracao", "competencias", "objetivos",
    "contextualizacao", "resumo", "materiais", "pre_experiencia",
    "procedimento", "pos_experiencia", "resultados_esperados",
    "seguranca_json", "quiz_json", "diferenciacao_json",
    "recursos_extras", "disciplinas", "anos", "autor"]

  /** The value inserted under one column: free text through `to_string`,
      the nested blocks and the two lists JSON-encoded, each missing field
      taken as its default. */
  function StoredValue(h: Host, p: seq<(string, Json)>, column: string): Cell {
    if column in TextColumns then SqlText(ToStorageText(h, GetOr(p, column, Str(""))))
    else if column == "seguranca_json" then SqlText(h.dumps(GetOr(p, "seguranca", Obj([]))))
    else if column == "quiz_json" then SqlText(h.dumps(GetOr(p, "quiz", Arr([]))))
    else if column == "diferenciacao_json" then SqlText(h.dumps(GetOr(p, "diferenciacao", Obj([]))))
    else SqlText(h.dumps(GetOr(p, column, Arr([]))))
  }

  /** The nineteen values `save_protocol` inserts for a draft. */
  function StorageValues(h: Host, p: seq<(string, Json)>): (r: map<string, Cell>)
    ensures r.Keys == set k | k in InsertColumns
    ensures forall k :: k in r ==> r[k].SqlText?
  {
    map k | k in InsertColumns :: StoredValue(h, p, k)
  }

  /** Each encoded column holds the JSON text of its field, or of the
      field's default when the draft lacks it; every other column holds the
      field through `to_string`. */
  lemma StorageValuesEncode(h: Host, p: seq<(string, Json)>)
    ensures var r := StorageValues(h, p);
      && "seguranca_json" in r && "quiz_json" in r && "diferenciacao_json" in r
      && "disciplinas" in r && "anos" in r
      && r["seguranca_json"] == SqlText(h.dumps(GetOr(p, "seguranca", Obj([]))))
      && r["quiz_json"] == SqlText(h.dumps(GetOr(p, "quiz", Arr([]))))
      && r["diferenciacao_json"] == SqlText(h.dumps(GetOr(p, "diferenciacao", Obj([]))))
      && r["disciplinas"] == SqlText(h.dumps(GetOr(p, "disciplinas", Arr([]))))
      && r["anos"] == SqlText(h.dumps(GetOr(p, "anos", Arr([]))))
      && forall k :: k in TextColumns ==> k in r && r[k] == SqlText(ToStorageText(h, GetOr(p, k, Str(""))))
  {
    var r := StorageValues(h, p);
    assert InsertColumns[12] == "seguranca_json" && InsertColumns[13] == "quiz_json";
    assert InsertColumns[14] == "diferenciacao_json";
    assert InsertColumns[16] == "disciplinas" && InsertColumns[17] == "anos";
    EncodedNotText();
    forall k | k in TextColumns ensures k in InsertColumns {
      var i :| 0 <= i < |TextColumns| && TextColumns[i] == k;
    }
  }

  /** None of the encoded columns is a free-text column. */
  lemma EncodedNotText()
    ensures "seguranca_json" !in TextColumns && "quiz_json" !in TextColumns
    ensures "diferenciacao_json" !in TextColumns
    ensures "disciplinas" !in TextColumns && "anos" !in TextColumns
  {
  }

  /** A stored row decoded for display: the row itself and its five decoded
      structured fields. */
  datatype View = View(
    row: Row,
    disciplinas: Json,
    anos: Json,
    seguranca: Json,
    quiz: Json,
    diferenciacao: Json)

  /** `json.loads(row[key])` with no protection: a missing column, a NULL or
      any other non-text cell, or text that does not decode, is an error. */
  function HardDecode(h: Host, row: Row, key: string): (r: Result<Json, Fault>)
    ensures r.Err? ==> r.error == ServerError
    ensures r.Ok? <==> key in row && row[key].SqlText? && h.loads(row[key].s).Some?
  {
    if key !in row then Err(ServerError)
    else match row[key]
      case SqlText(s) => if h.loads(s).Some? then Ok(h.loads(s).value) else Err(ServerError)
      case _ => Err(ServerError)
  }

  /** `json.loads(row.get(key, literal))` inside `try`, with `fallback` in the
      `except` branch: a cell that is not decodable text gives the fallback. */
  function SoftDecode(h: Host, row: Row, key: string, literal: string, fallback: Json): (r: Json)
    ensures key in row && row[key].SqlText? && h.loads(row[key].s).Some? ==> r == h.loads(row[key].s).value
    ensures key in row && !(row[key].SqlText? && h.loads(row[key].s).Some?) ==> r == fallback
  {
    var cell := if key in row then row[key] else SqlText(literal);
    if cell.SqlText? then h.loads(cell.s).GetOr(fallback) else fallback
  }

  /** A missing column decodes to the literal's value, which for the host
      JSON library is the fallback itself. */
  lemma SoftDecodeMissing(h: Host, row: Row, key: string)
    requires Lawful(h) && key !in row
    ensures SoftDecode(h, row, key, "{}", Obj([])) == Obj([])
    ensures SoftDecode(h, row, key, "[]", Arr([])) == Arr([])
  {
  }

  /** The record `ver_protocolo` renders: the lists decoded without
      protection, the nested blocks with their empty defaults. */
  function Reconstruct(h: Host, row: Row): (r: Result<View, Fault>)
    ensures r.Ok? <==> HardDecode(h, row, "disciplinas").Ok? && HardDecode(h, row, "anos").Ok?
    ensures r.Err? ==> r.error == ServerError
    ensures r.Ok? ==>
      && r.value.row == row
      && r.value.disciplinas == HardDecode(h, row, "disciplinas").value
      && r.value.anos == HardDecode(h, row, "anos").value
  {
    var disciplinas := HardDecode(h, row, "disciplinas");
    var anos := HardDecode(h, row, "anos");
    if disciplinas.Err? || anos.Err? then Err(ServerError)
    else Ok(View(row, disciplinas.value, anos.value,
      SoftDecode(h, row, "seguranca_json", "{}", Obj([])),
      SoftDecode(h, row, "quiz_json", "[]", Arr([])),
      SoftDecode(h, row, "diferenciacao_json", "{}", Obj([]))))
  }

  /** A corrupt or NULL structured cell yields its empty default and leaves
      every other decoded field as it was. */
  lemma CorruptBlockIsolated(h: Host, row: Row, key: string, bad: Cell)
    requires key == "seguranca_json" || key == "quiz_json" || key == "diferenciacao_json"
    requires !(bad.SqlText? && h.loads(bad.s).Some?)
    requires Reconstruct(h, row).Ok?
    ensures var v := Reconstruct(h, row).value;
      var w := Reconstruct(h, row[key := bad]);
      && w.Ok?
      && w.value.disciplinas == v.disciplinas && w.value.anos == v.anos
      && w.value.seguranca == (if key == "seguranca_json" then Obj([]) else v.seguranca)
      && w.value.quiz == (if key == "quiz_json" then Arr([]) else v.quiz)
      && w.value.diferenciacao == (if key == "diferenciacao_json" then Obj([]) else v.diferenciacao)
  {
    var row2 := row[key := bad];
    assert HardDecode(h, row2, "disciplinas") == HardDecode(h, row, "disciplinas");
    assert HardDecode(h, row2, "anos") == HardDecode(h, row, "anos");
  }

  /** What is stored is what is read back: for a lawful JSON library and a
      draft Python can hold, decoding a row carrying the inserted values
      gives every structured field of the draft (or its default). */
  lemma StoredStructureRestored(h: Host, p: seq<(string, Json)>, row: Row)
    requires Lawful(h) && WellFormed(Obj(p))
    requires forall k :: k in StorageValues(h, p) ==> k in row && row[k] == StorageValues(h, p)[k]
    ensures var r := Reconstruct(h, row);
      && r.Ok?
      && r.value.disciplinas == GetOr(p, "disciplinas", Arr([]))
      && r.value.anos == GetOr(p, "anos", Arr([]))
      && r.value.seguranca == GetOr(p, "seguranca", Obj([]))
      && r.value.quiz == GetOr(p, "quiz", Arr([]))
      && r.value.diferenciacao == GetOr(p, "diferenciacao", Obj([]))
  {
    StorageValuesEncode(h, p);
    var values := StorageValues(h, p);
    assert row["disciplinas"] == values["disciplinas"] && row["anos"] == values["anos"];
    assert row["seguranca_json"] == values["seguranca_json"] && row["quiz_json"] == values["quiz_json"];
    assert row["diferenciacao_json"] == values["diferenciacao_json"];
    FieldRestored(h, p, row, "disciplinas", "disciplinas", Arr([]));
    FieldRestored(h, p, row, "anos", "anos", Arr([]));
    FieldRestored(h, p, row, "seguranca_json", "seguranca", Obj([]));
    FieldRestored(h, p, row, "quiz_json", "quiz", Arr([]));
    FieldRestored(h, p, row, "diferenciacao_json", "diferenciacao", Obj([]));
    ReconstructDecoded(h, row);
  }

  /** The cell under key holds text that decodes. */
  predicate Decodes(h: Host, row: Row, key: string) {
    key in row && row[key].SqlText? && h.loads(row[key].s).Some?
  }

  /** When all five structured cells decode, the view holds what they
      decode to. */
  lemma ReconstructDecoded(h: Host, row: Row)
    requires Decodes(h, row, "disciplinas") && Decodes(h, row, "anos")
    requires Decodes(h, row, "seguranca_json") && Decodes(h, row, "quiz_json")
    requires Decodes(h, row, "diferenciacao_json")
    ensures Reconstruct(h, row) == Ok(View(row,
      h.loads(row["disciplinas"].s).value, h.loads(row["anos"].s).value,
      h.loads(row["seguranca_json"].s).value, h.loads(row["quiz_json"].s).value,
      h.loads(row["diferenciacao_json"].s).value))
  {
  }

  /** One encoded column decodes to the field it was encoded from. */
  lemma FieldRestored(h: Host, p: seq<(string, Json)>, row: Row, column: string, field: string, default: Json)
    requires Lawful(h) && WellFormed(Obj(p)) && WellFormed(default)
    requires column in row && row[column] == SqlText(h.dumps(GetOr(p, field, default)))
    ensures row[column].SqlText? && h.loads(row[column].s) == Some(GetOr(p, field, default))
  {
    LookupWellFormed(p, field);
  }
}
