/** Producing a protocol draft: the fallback record, the failure policy of
    generation and regeneration, and the two request handlers that wrap them.
    The language model itself is an oracle: `reply` is None when the call
    raises (network, timeout, or a reply without text content). */
module Generation {
  import opened Wrappers
  import opened Faults
  import opened JsonModel
  import opened Text
  import opened Sanitizer

  /** The risk levels the prompt allows. */
  predicate RiskLevel(s: string) {
    s == "Baixo" || s == "Médio" || s == "Alto"
  }

  predicate IsStringList(j: Json) {
    j.Arr? && forall i :: 0 <= i < |j.items| ==> j.items[i].Str?
  }

  /** The field under `key` of an object, or None for anything else. */
  function Field(j: Json, key: string): Option<Json> {
    if j.Obj? then Lookup(j.fields, key) else None
  }

  predicate HasText(j: Json, key: string) {
    Field(j, key).Some? && Field(j, key).value.Str?
  }

  predicate HasStringList(j: Json, key: string) {
    Field(j, key).Some? && IsStringList(Field(j, key).value)
  }

  /** A complete safety block: every entry holds text and the risk level is
      one of the three levels. */
  predicate SafetyShaped(j: Json) {
    && HasText(j, "nivel_risco") && RiskLevel(Field(j, "nivel_risco").value.s)
    && HasText(j, "riscos") && HasText(j, "epi") && HasText(j, "supervisao")
    && HasText(j, "cuidados") && HasText(j, "primeiros_socorros") && HasText(j, "descarte")
  }

  /** A differentiation block: each of its three entries is a list of texts. */
  predicate DifferentiationShaped(j: Json) {
    HasStringList(j, "simplificacao") && HasStringList(j, "aprofundamento") && HasStringList(j, "inclusao")
  }

  /** The record shape every stage downstream can rely on: all fields of the
      prompt's format are present, with well-formed nested blocks. */
  predicate ProtocolShaped(j: Json) {
    && Field(j, "titulo").Some? && Field(j, "resumo").Some? && Field(j, "contextualizacao").Some?
    && HasText(j, "subtitulo") && HasText(j, "duracao") && HasText(j, "materiais")
    && HasText(j, "pre_experiencia") && HasText(j, "procedimento")
    && HasText(j, "pos_experiencia") && HasText(j, "resultados_esperados")
    && HasStringList(j, "competencias") && HasStringList(j, "objetivos")
    && HasStringList(j, "recursos_extras")
    && Field(j, "seguranca").Some? && SafetyShaped(Field(j, "seguranca").value)
    && Field(j, "quiz").Some? && Field(j, "quiz").value.Arr?
    && Field(j, "diferenciacao").Some? && DifferentiationShaped(Field(j, "diferenciacao").value)
  }

  /** The fixed texts of the fallback draft. */
  const FallbackSubtitle := "Protocolo experimental"
  const FallbackDuration := "45 minutos"
  const FallbackCompetence := "Trabalho prático"
  const FallbackObjective := "Realizar a experiência proposta"
  const FallbackMaterials := "Erro ao gerar materiais. Por favor, tenta novamente."
  const FallbackPreActivity := "Discussão prévia sobre o tema."
  const FallbackProcedure := "Erro ao gerar procedimento. Por favor, tenta novamente."
  const FallbackPostActivity := "Discussão dos resultados observados."
  const FallbackExpected := "A definir."
  const FallbackRisks := "Análise de segurança não disponível."
  const FallbackEquipment := "Óculos e bata de laboratório recomendados."
  const FallbackSupervision := "Professor presente."
  const FallbackCare := "Supervisão constante necessária."
  const FallbackFirstAid := "Contactar responsável em caso de acidente."
  const FallbackDisposal := "Seguir normas do laboratório."

  /** `criar_protocolo_fallback`: the conservative draft built from the
      caller's own title and summary. Total: any title and summary will do. */
  function Fallback(title: Json, summary: Json): (r: Json)
    ensures r.Obj? && |r.fields| == 16
  {
    var safety := [
      ("nivel_risco", Str("Médio")),
      ("riscos", Str(FallbackRisks)),
      ("epi", Str(FallbackEquipment)),
      ("supervisao", Str(FallbackSupervision)),
      ("cuidados", Str(FallbackCare)),
      ("primeiros_socorros", Str(FallbackFirstAid)),
      ("descarte", Str(FallbackDisposal))];
    var differentiation := [
      ("simplificacao", Arr([])),
      ("aprofundamento", Arr([])),
      ("inclusao", Arr([]))];
    var fields := [
      ("titulo", title),
      ("subtitulo", Str(FallbackSubtitle)),
      ("duracao", Str(FallbackDuration)),
      ("competencias", Arr([Str(FallbackCompetence)])),
      ("objetivos", Arr([Str(FallbackObjective)])),
      ("contextualizacao", summary),
      ("resumo", summary),
      ("materiais", Str(FallbackMaterials)),
      ("pre_experiencia", Str(FallbackPreActivity)),
      ("procedimento", Str(FallbackProcedure)),
      ("pos_experiencia", Str(FallbackPostActivity)),
      ("resultados_esperados", Str(FallbackExpected)),
      ("seguranca", Obj(safety)),
      ("quiz", Arr([])),
      ("diferenciacao", Obj(differentiation)),
      ("recursos_extras", Arr([]))];
    Obj(fields)
  }

  /** The fallback has distinct keys. */
  lemma FallbackDistinct(title: Json, summary: Json)
    ensures DistinctKeys(Fallback(title, summary).fields)
  {
  }

  /** Every entry of the fallback is what its key looks up. */
  lemma FallbackFields(title: Json, summary: Json)
    ensures var r := Fallback(title, summary);
      forall i :: 0 <= i < |r.fields| ==> Field(r, r.fields[i].0) == Some(r.fields[i].1)
  {
    var fs := Fallback(title, summary).fields;
    FallbackDistinct(title, summary);
    forall i | 0 <= i < |fs| ensures Lookup(fs, fs[i].0) == Some(fs[i].1) {
      LookupDistinct(fs, i);
    }
  }

  /** The top-level entries of the fallback by name. */
  lemma FallbackTop(title: Json, summary: Json)
    ensures var r := Fallback(title, summary);
      && Field(r, "titulo") == Some(r.fields[0].1)
      && Field(r, "subtitulo") == Some(r.fields[1].1)
      && Field(r, "duracao") == Some(r.fields[2].1)
      && Field(r, "competencias") == Some(r.fields[3].1)
      && Field(r, "objetivos") == Some(r.fields[4].1)
      && Field(r, "contextualizacao") == Some(r.fields[5].1)
      && Field(r, "resumo") == Some(r.fields[6].1)
      && Field(r, "materiais") == Some(r.fields[7].1)
      && Field(r, "pre_experiencia") == Some(r.fields[8].1)
      && Field(r, "procedimento") == Some(r.fields[9].1)
      && Field(r, "pos_experiencia") == Some(r.fields[10].1)
      && Field(r, "resultados_esperados") == Some(r.fields[11].1)
      && Field(r, "seguranca") == Some(r.fields[12].1)
      && Field(r, "quiz") == Some(r.fields[13].1)
      && Field(r, "diferenciacao") == Some(r.fields[14].1)
      && Field(r, "recursos_extras") == Some(r.fields[15].1)
  {
    var r := Fallback(title, summary);
    FallbackDistinct(title, summary);
    LookupDistinct(r.fields, 0);
    LookupDistinct(r.fields, 1);
    LookupDistinct(r.fields, 2);
    LookupDistinct(r.fields, 3);
    LookupDistinct(r.fields, 4);
    LookupDistinct(r.fields, 5);
    LookupDistinct(r.fields, 6);
    LookupDistinct(r.fields, 7);
    LookupDistinct(r.fields, 8);
    LookupDistinct(r.fields, 9);
    LookupDistinct(r.fields, 10);
    LookupDistinct(r.fields, 11);
    LookupDistinct(r.fields, 12);
    LookupDistinct(r.fields, 13);
    LookupDistinct(r.fields, 14);
    LookupDistinct(r.fields, 15);
  }

  /** The nested entries of the fallback by name. */
  lemma FallbackNested(title: Json, summary: Json)
    ensures var r := Fallback(title, summary);
      && SafetyShaped(r.fields[12].1)
      && Field(r.fields[12].1, "nivel_risco") == Some(Str("Médio"))
      && DifferentiationShaped(r.fields[14].1)
  {
    var r := Fallback(title, summary);
    var safety := r.fields[12].1;
    var diff := r.fields[14].1;
    assert DistinctKeys(safety.fields) && DistinctKeys(diff.fields);
    LookupDistinct(safety.fields, 0);
    LookupDistinct(safety.fields, 1);
    LookupDistinct(safety.fields, 2);
    LookupDistinct(safety.fields, 3);
    LookupDistinct(safety.fields, 4);
    LookupDistinct(safety.fields, 5);
    LookupDistinct(safety.fields, 6);
    LookupDistinct(diff.fields, 0);
    LookupDistinct(diff.fields, 1);
    LookupDistinct(diff.fields, 2);
    assert Field(safety, "nivel_risco") == Some(Str("Médio"));
    assert Field(safety, "riscos") == Some(safety.fields[1].1);
    assert Field(safety, "epi") == Some(safety.fields[2].1);
    assert Field(safety, "supervisao") == Some(safety.fields[3].1);
    assert Field(safety, "cuidados") == Some(safety.fields[4].1);
    assert Field(safety, "primeiros_socorros") == Some(safety.fields[5].1);
    assert Field(safety, "descarte") == Some(safety.fields[6].1);
    assert Field(diff, "simplificacao") == Some(Arr([]));
    assert Field(diff, "aprofundamento") == Some(Arr([]));
    assert Field(diff, "inclusao") == Some(Arr([]));
  }

  /** The fallback always has the complete shape, whatever the title and
      summary (empty ones included); it carries the caller's title and
      summary (the summary also as the contextualisation), a medium risk
      level, no quiz and three empty differentiation lists. */
  lemma FallbackComplete(title: Json, summary: Json)
    ensures var r := Fallback(title, summary);
      && ProtocolShaped(r)
      && Field(r, "titulo") == Some(title)
      && Field(r, "resumo") == Some(summary)
      && Field(r, "contextualizacao") == Some(summary)
      && Field(Field(r, "seguranca").value, "nivel_risco") == Some(Str("Médio"))
      && Field(r, "quiz") == Some(Arr([]))
      && Field(r, "diferenciacao") == Some(Obj([
           ("simplificacao", Arr([])), ("aprofundamento", Arr([])), ("inclusao", Arr([]))]))
  {
    var r := Fallback(title, summary);
    FallbackTop(title, summary);
    FallbackNested(title, summary);
    assert HasText(r, "subtitulo") && HasText(r, "duracao") && HasText(r, "materiais");
    assert HasText(r, "pre_experiencia") && HasText(r, "procedimento");
    assert HasText(r, "pos_experiencia") && HasText(r, "resultados_esperados");
    assert HasStringList(r, "competencias") && HasStringList(r, "objetivos");
    assert HasStringList(r, "recursos_extras");
  }

  /** What the model's reply decodes to: None when the call raised or when
      the sanitised text is not valid JSON. */
  function DecodeReply(h: Host, reply: Option<string>): (r: Option<Json>)
    ensures reply.None? ==> r.None?
    ensures reply.Some? ==> r == h.loads(Sanitize(reply.value))
  {
    match reply
    case None => None
    case Some(text) => h.loads(Sanitize(text))
  }

  /** `gerar_protocolo_ia` from the client call on: the decoded reply, or
      the fallback draft on any failure. */
  function Generate(h: Host, title: Json, summary: Json, reply: Option<string>): (r: Json)
    ensures DecodeReply(h, reply).Some? ==> r == DecodeReply(h, reply).value
    ensures DecodeReply(h, reply).None? ==> r == Fallback(title, summary)
    ensures DecodeReply(h, reply).None? ==>
      && ProtocolShaped(r)
      && Field(r, "titulo") == Some(title)
      && Field(r, "resumo") == Some(summary)
  {
    match DecodeReply(h, reply)
    case Some(p) => p
    case None =>
      FallbackComplete(title, summary);
      Fallback(title, summary)
  }

  /** A reply in a "```json" fence yields what its body decodes to, or the
      fallback when the body is not valid JSON either. */
  lemma GenerateFromFencedReply(h: Host, title: Json, summary: Json, body: string)
    requires NoOuterSpace(body)
    ensures var r := Generate(h, title, summary, Some(JsonFence + "\n" + body + "\n" + Fence));
      r == if h.loads(body).Some? then h.loads(body).value else Fallback(title, summary)
  {
    JsonFencedReply(body);
  }

  /** `regenerar_protocolo_ia` from the client call on: the decoded reply, or
      on any failure the previous protocol exactly as it was passed in. */
  function Regenerate(h: Host, previous: Json, reply: Option<string>): (r: Json)
    ensures DecodeReply(h, reply).Some? ==> r == DecodeReply(h, reply).value
    ensures DecodeReply(h, reply).None? ==> r == previous
  {
    match DecodeReply(h, reply)
    case Some(p) => p
    case None => previous
  }

  /** `', '.join(x)` succeeds: x is a text (joined character by character),
      a dict (its keys are joined) or a list of texts. */
  predicate Joinable(j: Json) {
    match j
    case Str(_) => true
    case Obj(_) => true
    case Arr(items) => forall i :: 0 <= i < |items| ==> items[i].Str?
    case _ => false
  }

  /** Copies the author, school years and disciplines onto a draft. */
  function Stamp(p: seq<(string, Json)>, autor: Json, anos: Json, disciplinas: Json): (r: seq<(string, Json)>)
    ensures Lookup(r, "autor") == Some(autor)
    ensures Lookup(r, "anos") == Some(anos)
    ensures Lookup(r, "disciplinas") == Some(disciplinas)
    ensures forall k :: k != "autor" && k != "anos" && k != "disciplinas" ==> Lookup(r, k) == Lookup(p, k)
    ensures DistinctKeys(p) ==> DistinctKeys(r)
  {
    Put(Put(Put(p, "autor", autor), "anos", anos), "disciplinas", disciplinas)
  }

  /** Two values agree on every top-level field the record shape speaks of. */
  predicate ShapeFieldsAgree(a: Json, b: Json) {
    && Field(a, "titulo") == Field(b, "titulo") && Field(a, "resumo") == Field(b, "resumo")
    && Field(a, "contextualizacao") == Field(b, "contextualizacao")
    && Field(a, "subtitulo") == Field(b, "subtitulo") && Field(a, "duracao") == Field(b, "duracao")
    && Field(a, "materiais") == Field(b, "materiais")
    && Field(a, "pre_experiencia") == Field(b, "pre_experiencia")
    && Field(a, "procedimento") == Field(b, "procedimento")
    && Field(a, "pos_experiencia") == Field(b, "pos_experiencia")
    && Field(a, "resultados_esperados") == Field(b, "resultados_esperados")
    && Field(a, "competencias") == Field(b, "competencias")
    && Field(a, "objetivos") == Field(b, "objetivos")
    && Field(a, "recursos_extras") == Field(b, "recursos_extras")
    && Field(a, "seguranca") == Field(b, "seguranca") && Field(a, "quiz") == Field(b, "quiz")
    && Field(a, "diferenciacao") == Field(b, "diferenciacao")
  }

  /** Storing under one key leaves the field under any other key as it was. */
  lemma FieldPutOther(p: seq<(string, Json)>, key: string, v: Json, other: string)
    requires other != key
    ensures Field(Obj(Put(p, key, v)), other) == Field(Obj(p), other)
  {
  }

  /** Adding one field the shape does not speak of keeps those it does. */
  lemma PutOtherAgrees(p: seq<(string, Json)>, key: string, v: Json)
    requires key == "autor" || key == "anos" || key == "disciplinas"
    ensures ShapeFieldsAgree(Obj(p), Obj(Put(p, key, v)))
  {
    FieldPutOther(p, key, v, "titulo");
    FieldPutOther(p, key, v, "resumo");
    FieldPutOther(p, key, v, "contextualizacao");
    FieldPutOther(p, key, v, "subtitulo");
    FieldPutOther(p, key, v, "duracao");
    FieldPutOther(p, key, v, "materiais");
    FieldPutOther(p, key, v, "pre_experiencia");
    FieldPutOther(p, key, v, "procedimento");
    FieldPutOther(p, key, v, "pos_experiencia");
    FieldPutOther(p, key, v, "resultados_esperados");
    FieldPutOther(p, key, v, "competencias");
    FieldPutOther(p, key, v, "objetivos");
    FieldPutOther(p, key, v, "recursos_extras");
    FieldPutOther(p, key, v, "seguranca");
    FieldPutOther(p, key, v, "quiz");
    FieldPutOther(p, key, v, "diferenciacao");
  }

  /** The draft is a dict whose author, years and disciplines are those of
      `source` (with the handlers' defaults for missing ones). */
  predicate CarriesAuthorship(r: Json, source: seq<(string, Json)>) {
    && r.Obj?
    && Field(r, "autor") == Some(GetOr(source, "autor", Str("")))
    && Field(r, "anos") == Some(GetOr(source, "anos", Arr([])))
    && Field(r, "disciplinas") == Some(GetOr(source, "disciplinas", Arr([])))
  }

  /** Adding the author, years and disciplines keeps a draft complete. */
  lemma StampKeepsShape(p: seq<(string, Json)>, autor: Json, anos: Json, disciplinas: Json)
    requires ProtocolShaped(Obj(p))
    ensures ProtocolShaped(Obj(Stamp(p, autor, anos, disciplinas)))
  {
    var p1 := Put(p, "autor", autor);
    var p2 := Put(p1, "anos", anos);
    PutOtherAgrees(p, "autor", autor);
    PutOtherAgrees(p1, "anos", anos);
    PutOtherAgrees(p2, "disciplinas", disciplinas);
  }

  /** The request's title, or "(Sem título)" when it is missing or falsy. */
  function RequestTitle(fields: seq<(string, Json)>): (r: Json)
    ensures Truthy(r)
    ensures Truthy(GetOr(fields, "titulo", Str(""))) ==> r == GetOr(fields, "titulo", Str(""))
  {
    var given := GetOr(fields, "titulo", Str(""));
    if Truthy(given) then given else Str("(Sem título)")
  }

  /** The draft `gerar_protocolo_ia` returns for a generation request. */
  function RouteDraft(h: Host, fields: seq<(string, Json)>, reply: Option<string>): Json {
    Generate(h, RequestTitle(fields), GetOr(fields, "resumo", Str("")), reply)
  }

  /** The handler of a generation request: read the request fields (an empty
      or missing title becomes "(Sem título)"), build the prompt (joining the
      years and disciplines, which fails for anything but texts), generate,
      and copy author, years and disciplines onto the draft. */
  function GenerateRoute(h: Host, data: Json, reply: Option<string>): (r: Result<Json, Fault>)
    ensures r.Ok? <==>
      && data.Obj?
      && Joinable(GetOr(data.fields, "anos", Arr([])))
      && Joinable(GetOr(data.fields, "disciplinas", Arr([])))
      && RouteDraft(h, data.fields, reply).Obj?
    ensures r.Ok? ==> data.Obj? && CarriesAuthorship(r.value, data.fields)
    ensures r.Ok? ==> forall k :: k != "autor" && k != "anos" && k != "disciplinas" ==>
      Field(r.value, k) == Field(RouteDraft(h, data.fields, reply), k)
    ensures r.Err? ==> r.error == ServerError
  {
    if !data.Obj? then Err(ServerError)
    else
      var autor := GetOr(data.fields, "autor", Str(""));
      var anos := GetOr(data.fields, "anos", Arr([]));
      var disciplinas := GetOr(data.fields, "disciplinas", Arr([]));
      var resumo := GetOr(data.fields, "resumo", Str(""));
      var titulo := RequestTitle(data.fields);
      if !Joinable(anos) || !Joinable(disciplinas) then Err(ServerError)
      else
        var p := Generate(h, titulo, resumo, reply);
        if !p.Obj? then Err(ServerError)
        else Ok(Obj(Stamp(p.fields, autor, anos, disciplinas)))
  }

  /** When generation fails, a well-formed request still gets a complete
      draft, with a non-empty title, instead of an error. */
  lemma GenerateRouteNeverFailsOnModelFailure(h: Host, data: Json, reply: Option<string>)
    requires data.Obj?
    requires Joinable(GetOr(data.fields, "anos", Arr([])))
    requires Joinable(GetOr(data.fields, "disciplinas", Arr([])))
    requires DecodeReply(h, reply).None?
    ensures var r := GenerateRoute(h, data, reply);
      && r.Ok? && ProtocolShaped(r.value)
      && Truthy(Field(r.value, "titulo").value)
  {
    var p := RouteDraft(h, data.fields, reply);
    StampKeepsShape(p.fields, GetOr(data.fields, "autor", Str("")),
      GetOr(data.fields, "anos", Arr([])), GetOr(data.fields, "disciplinas", Arr([])));
  }

  /** The handler of a regeneration request. The log line slices the
      feedback (`feedback[:50]`), which fails unless it is a text or a list;
      the author, years and disciplines are taken back from the previous
      protocol, which must therefore be a dict. */
  function RegenerateRoute(h: Host, data: Json, reply: Option<string>): (r: Result<Json, Fault>)
    ensures r.Ok? ==> data.Obj? && GetOr(data.fields, "protocolo_anterior", Obj([])).Obj?
    ensures r.Ok? <==>
      && data.Obj?
      && var prev := GetOr(data.fields, "protocolo_anterior", Obj([]));
         var feedback := GetOr(data.fields, "feedback", Str(""));
         (feedback.Str? || feedback.Arr?) && prev.Obj? && Regenerate(h, prev, reply).Obj?
    ensures r.Ok? ==> CarriesAuthorship(r.value, GetOr(data.fields, "protocolo_anterior", Obj([])).fields)
    ensures r.Ok? ==> forall k :: k != "autor" && k != "anos" && k != "disciplinas" ==>
      Field(r.value, k) == Field(Regenerate(h, GetOr(data.fields, "protocolo_anterior", Obj([])), reply), k)
    ensures r.Err? ==> r.error == ServerError
  {
    if !data.Obj? then Err(ServerError)
    else
      var prev := GetOr(data.fields, "protocolo_anterior", Obj([]));
      var feedback := GetOr(data.fields, "feedback", Str(""));
      if !(feedback.Str? || feedback.Arr?) then Err(ServerError)
      else
        var p := Regenerate(h, prev, reply);
        if !prev.Obj? || !p.Obj? then Err(ServerError)
        else
          Ok(Obj(Stamp(p.fields,
            GetOr(prev.fields, "autor", Str("")),
            GetOr(prev.fields, "anos", Arr([])),
            GetOr(prev.fields, "disciplinas", Arr([])))))
  }

  /** When regeneration fails, the reply is the previous protocol itself,
      unchanged, provided it already carries its author, years and
      disciplines. */
  lemma RegenerateRouteKeepsPrevious(h: Host, data: Json, reply: Option<string>)
    requires data.Obj?
    requires var prev := GetOr(data.fields, "protocolo_anterior", Obj([]));
      && prev.Obj?
      && Lookup(prev.fields, "autor").Some?
      && Lookup(prev.fields, "anos").Some?
      && Lookup(prev.fields, "disciplinas").Some?
    requires var feedback := GetOr(data.fields, "feedback", Str("")); feedback.Str? || feedback.Arr?
    requires DecodeReply(h, reply).None?
    ensures RegenerateRoute(h, data, reply) == Ok(GetOr(data.fields, "protocolo_anterior", Obj([])))
  {
    var prev := GetOr(data.fields, "protocolo_anterior", Obj([]));
    var fs := prev.fields;
    var autor := Lookup(fs, "autor").value;
    var anos := Lookup(fs, "anos").value;
    var disciplinas := Lookup(fs, "disciplinas").value;
    PutSame(fs, "autor", autor);
    PutSame(fs, "anos", anos);
    PutSame(fs, "disciplinas", disciplinas);
  }
}
