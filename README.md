# Experimental-protocol portal: a verified model of its core

`app.py` is a Flask application that helps teachers write laboratory
protocols. It asks a language model for a protocol draft, cleans and decodes
the reply, and falls back to a fixed draft when that fails. It then stores
the draft in a SQLite table whose schema it evolves in place. It reads the
draft back with a mix of strict and lenient JSON decoding. It also counts
views and ratings, and serves a search and a statistics summary.

This project models that pipeline in Dafny and proves its properties:

- `text.dfy`: the Python string operations the code relies on. These are
  `strip` over Python's white space, `startswith`/`endswith`, `in`,
  `split(sep)[0]`, `"\n".join` and ASCII lower-casing.
- `json.dfy`: decoded JSON values, with dicts kept in insertion order.
  - Covers `dict.get`, `d[key] = v` and Python truthiness.
  - The host JSON library is a parameter. Its round-trip law is a hypothesis
    (`Lawful`), not an axiom.
- `sanitize.dfy`: the fence and white-space stripping applied to the model's
  reply.
- `generation.dfy`:
  - the fallback draft;
  - generation and regeneration with their failure policy;
  - the two request handlers that copy author, school years and disciplines
    onto the draft.
- `coercion.dfy`:
  - `to_string` and the values `save_protocol` inserts;
  - the strict decoding of `disciplinas`/`anos` and the lenient one of the
    three nested blocks.
- `schema.dfy` and `migration.dfy`:
  - the schema of a new database;
  - the column reconciliation `criar_base_de_dados` runs on an existing one,
    as functions on a table value.
- `ordering.dfy`: SQLite's descending `ORDER BY`, `LIMIT`, and Python's
  stable `sorted(..., reverse=True)`.
- `queries.dfy`:
  - the search filter;
  - the sort keys;
  - the view sum;
  - the discipline frequencies of `Counter(...).most_common()`.
- `storage.dfy`: the table as a `Database` class.
  - Fields: columns, rows and the last AUTOINCREMENT id.
  - Methods: migration loop, insert, save, view, rate, search and
    statistics.
  - Each method is proved against the functions above.

Some behaviours of the code are worth noting. The model keeps each of them:

- The search has no error handling: any failure in it, a list that does
  not decode included, fails the request with a server error.
- `disciplinas` and `anos` are decoded without protection. A corrupt or
  NULL cell in either fails the view and the search with a server error.
  The statistics decode only `disciplinas`, so a corrupt `disciplinas`
  cell fails them too, while a corrupt `anos` cell does not.
- An unknown id on the view route returns the page text "Protocolo não
  encontrado", not an error status. The model reports it as `NotFound`.
- Stripping the DEFAULT clause during reconciliation has a side effect.
  On a database that lacked `visualizacoes`, the column is added as plain
  `INTEGER`, so every row, old or new, holds NULL views. `NULL + 1` is
  NULL, so those views are never counted. The model keeps this behaviour
  and proves it (`Migration.MigratedViewsStartNull`,
  `Storage.MigratedSavesNullViews`, `Storage.BumpTimesNull`).

## Model

| member | source | states |
|---|---|---|
| `Sanitizer.Sanitize` | app.py:510-517 | the cleaned reply has no white space at either end and is never longer than the raw reply |
| `Sanitizer.JsonFencedReply` | app.py:510-517 | "```json", line break, body, line break, "```" cleans to exactly the body (body without outer white space) |
| `Sanitizer.PlainFencedReply` | app.py:513-517 | the same for an untagged "```" fence |
| `Sanitizer.UnfencedReply` | app.py:510-517 | a reply that, once trimmed, neither starts nor ends with "```" is only trimmed |
| `Sanitizer.UpperCaseTagKept` | app.py:511-514 | the tag match is case-sensitive: an upper-case "```JSON" fence loses its backticks but keeps "JSON" in front of the body |
| `Generation.Fallback` | app.py:531-562 | the fallback draft is a dict of sixteen entries, for any title and summary |
| `Generation.FallbackDistinct` | app.py:533-562 | the fallback's keys are distinct |
| `Generation.FallbackFields` | app.py:533-562 | every entry of the fallback is what a lookup of its key returns |
| `Generation.FallbackTop` | app.py:534-561 | each of the sixteen top-level keys looks up its own entry |
| `Generation.FallbackNested` | app.py:546-560 | the fallback's safety block is complete with risk level "Médio", and its differentiation block is complete |
| `Generation.FallbackComplete` | app.py:531-562 | the fallback has the complete record shape and carries the given title and summary (also as contextualisation), risk level "Médio", an empty quiz and three empty differentiation lists |
| `Generation.Generate` | app.py:506-529 | a reply that decodes after cleaning is returned as decoded; on any failure, a failed call included, the result is exactly the fallback draft for the given title and summary, a complete draft carrying them |
| `Generation.GenerateFromFencedReply` | app.py:510-526 | a "```json"-fenced reply yields what its body decodes to, or the fallback draft when the body does not decode |
| `Generation.Regenerate` | app.py:594-609 | a reply that decodes is returned; on any failure the previous protocol is returned exactly as passed in |
| `Generation.DecodeReply` | app.py:506-526 | a failed model call decodes to nothing; a reply decodes to what its cleaned text loads to |
| `JsonModel.Put` | app.py:178-180 | `d[key] = v`: the key then holds v, every other key is unchanged, keys stay distinct, an existing key keeps its place (the length is unchanged) and a new one goes last |
| `JsonModel.PutSame` | app.py:195-197 | storing the value a key already holds leaves the dict unchanged |
| `Generation.Stamp` | app.py:178-180 | after the three assignments author, years and disciplines hold the given values and every other key is unchanged |
| `Generation.StampKeepsShape` | app.py:178-180 | adding author, years and disciplines keeps a complete draft complete |
| `Generation.GenerateRoute` | app.py:166-182 | the request succeeds exactly when the body is a dict, the years and disciplines are lists of texts, and the draft is a dict; it then returns that draft with every key except author, years and disciplines unchanged, and those three set to the request's values or their defaults; every failure is a server error |
| `Generation.GenerateRouteNeverFailsOnModelFailure` | app.py:172-180 | when the model call or decoding fails, a well-formed request still gets a complete draft with a non-empty title |
| `Generation.RegenerateRoute` | app.py:186-199 | the request succeeds exactly when the body is a dict, the feedback is a text or a list, and both the previous protocol and the regenerated one are dicts; it then returns the regenerated draft with every key except author, years and disciplines unchanged, and those three copied from the previous protocol; every failure is a server error |
| `Generation.RegenerateRouteKeepsPrevious` | app.py:193-197 | when regeneration fails, the response is the previous protocol itself, unchanged, provided it already carries its author, years and disciplines |
| `Coercion.PyStr` | app.py:221 | `str` of a text is the text itself |
| `Coercion.ToStorageText` | app.py:219-222 | the empty list and every falsy non-list value are stored as ""; a text is stored as itself, and a one-text list as that text |
| `Coercion.ListJoined` | app.py:220-221 | a list of texts is stored as the texts joined by line breaks |
| `Coercion.ListRecoverable` | app.py:220-221 | splitting the stored text on line breaks gives a non-empty list of line-free texts back |
| `Coercion.FlatteningLossy` | app.py:220-221 | flattening is lossy: ["a\nb"] and ["a", "b"] are stored alike |
| `Coercion.ListExamples` | app.py:219-222 | ["a", "b"] is stored as "a\nb", and the empty list as "" |
| `Coercion.ScalarStored` | app.py:222 | a falsy non-list value is stored as "", a truthy one as its `str` form, a text as itself |
| `Coercion.StorageValues` | app.py:214-268 | the insert supplies exactly the named insert columns, all as text |
| `Coercion.StorageValuesEncode` | app.py:214-268 | the three nested blocks and the two lists are stored as the JSON encoding of the draft's field (or its default); the other columns hold `to_string` of the field |
| `Coercion.HardDecode` | app.py:314-315 | the unprotected decode succeeds exactly when the column exists, holds text and that text decodes; otherwise it is a server error |
| `Coercion.SoftDecode` | app.py:318-331 | a cell that is decodable text gives its value; any other cell gives the fallback |
| `Coercion.SoftDecodeMissing` | app.py:318-331 | a missing column decodes the literal default to `{}` or `[]` |
| `Coercion.Reconstruct` | app.py:313-331 | the view succeeds exactly when both lists decode, and holds the row and the two decoded lists |
| `Coercion.CorruptBlockIsolated` | app.py:317-331 | a corrupt or NULL nested-block cell gives that block its empty default and changes no other decoded field |
| `Coercion.ReconstructDecoded` | app.py:313-331 | when all five structured cells decode, the view holds exactly their values |
| `Coercion.FieldRestored` | app.py:266-267 | a column holding the encoding of a field decodes to that field, under a lawful JSON library |
| `Coercion.StoredStructureRestored` | app.py:214-267 | a row carrying the inserted values reads back every structured field of the draft, or its default |
| `Schema.DeclDefault` | app.py:48-51 | a declared type without DEFAULT gives NULL to rows that supply no value |
| `Schema.StripDefault` | app.py:86 | the stripped type no longer contains "DEFAULT" |
| `Schema.StripIntegerDefault` | app.py:77-87 | "INTEGER DEFAULT 0" is added as plain "INTEGER" |
| `Schema.RequiredInFullSchema` | app.py:26-79 | every column the reconciliation requires is part of the schema of a new database |
| `Schema.BackfillUnreachable` | app.py:85-89 | the data_criacao backfill never runs: only visualizacoes has a DEFAULT clause, and its name does not mention data_criacao |
| `Migration.AddColumn` | app.py:87 | `ADD COLUMN` puts the column last and gives every existing row the column's declared default |
| `Migration.Backfill` | app.py:89 | the backfill sets exactly the NULL cells of the column to the current time |
| `Migration.Step` | app.py:81-92 | a probed column that exists leaves the table unchanged; a missing one is appended as its stripped declaration; the number of rows is kept |
| `Migration.MigrateAll` | app.py:81-92 | the loop keeps every row and the old columns as a prefix, and adds at most one column per probe |
| `Migration.StepExtends` | app.py:81-92 | one probe adds at most its own column; it keeps every column in place and every existing cell, and changes nothing when the column exists |
| `Migration.StepNames` | app.py:81-92 | after one probe the column names are the old ones plus the probed one |
| `Migration.MigrateExtends` | app.py:81-92 | after the loop every required column is present, none is removed, renamed or reordered, and every existing cell keeps its value |
| `Migration.MigratePresent` | app.py:82-83 | when every required column exists the loop changes nothing |
| `Migration.MigrateIdempotent` | app.py:63-92 | a second run, at any time, adds nothing and changes nothing |
| `Migration.MigrateAddsOnlyMentioned` | app.py:81-92 | the loop adds no column it was not asked for |
| `Migration.MigratedViewsStartNull` | app.py:77-87 | on a database without visualizacoes the loop adds it as "INTEGER", and every row holds NULL there |
| `Migration.ViewsStep` | app.py:85-87 | the visualizacoes probe adds a plain "INTEGER" column whose cells are NULL |
| `Migration.FullSchemaNeedsNothing` | app.py:26-79 | reconciling a database created with the full schema changes nothing |
| `Ordering.OutranksTotal` | app.py:128 | the descending order over (first, second) keys is a strict total order |
| `Ordering.Sort` | app.py:140-141 | the sort is a permutation of its input and is in descending order |
| `Ordering.SortStable` | app.py:140-141 | the sort is stable: the elements of any one rank keep their relative order |
| `Ordering.Take` | app.py:129 | `LIMIT n` keeps the first min(n, length) elements |
| `Ordering.TakeKeepsHighest` | app.py:125-130 | after a descending sort, nothing left out by `LIMIT` outranks anything kept |
| `Queries.Filter` | app.py:285-288 | a row is kept exactly when its title, summary or author contains the query |
| `Queries.Like` | app.py:287-288 | the empty query matches every text or number cell; a NULL cell never matches |
| `Queries.Matches` | app.py:285-288 | a matching row has a title, summary or author column; with the empty query every row with a text title matches |
| `Queries.SearchOrder` | app.py:285-289 | the search result holds exactly the matching rows, each as often as in the table, newest first |
| `Queries.SearchNoMatch` | app.py:285-290 | a query that matches no row yields an empty result, not an error |
| `Queries.LikeIgnoresAsciiCase` | app.py:287-288 | a text matches every query that spells one of its pieces in any ASCII case |
| `Queries.LikeSameSpelling` | app.py:287-288 | two queries, or two cell texts, that differ only in ASCII case match alike |
| `Queries.Hits` | app.py:290-293 | the search response pairs each result row with its two decoded lists; it fails exactly when some result row's lists do not decode |
| `Queries.TotalViews` | app.py:122-123 | the view total of an empty table is 0, not NULL |
| `Queries.TotalViewsAppend` | app.py:122 | each row adds exactly its numeric view count to the total |
| `Queries.TotalViewsAllNull` | app.py:122-123 | rows whose counter is NULL add nothing, so the total is 0 |
| `Queries.Project` | app.py:131 | a listing entry keeps exactly the selected columns that the row has, with their values |
| `Queries.Elements` | app.py:137 | `extend` accepts a list (its items), a text (its characters) or a dict (its keys), and nothing else |
| `Queries.AllDisciplines` | app.py:133-137 | the collection succeeds exactly when every row's disciplinas cell decodes to something `extend` accepts; every failure is a server error |
| `Queries.FirstSeen` | app.py:140 | the Counter's keys are distinct and are exactly the values seen |
| `Queries.Tally` | app.py:140 | each distinct value, in first-seen order, with its number of occurrences |
| `Queries.MostCommon` | app.py:140-141 | the frequency list is the sorted tally; it fails exactly when some value is unhashable |
| `Queries.MostCommonCounts` | app.py:140-141 | every value seen appears once in the frequency list with its occurrence count, and nothing else appears |
| `Queries.MostCommonOrder` | app.py:140-141 | counts are listed highest first, and equal counts keep first-seen order |
| `Queries.MostCommonExample` | app.py:140-141 | Física twice and Química once give [(Física, 2), (Química, 1)] |
| `Queries.MostCommonTieExample` | app.py:140-141 | Química then Física, once each, stay in that order |
| `Storage.Find` | app.py:306-307 | the row found carries the id; no row is found exactly when no row carries it |
| `Storage.FindAt` | app.py:306-307 | with distinct ids, looking up a row's id finds that row |
| `Storage.Inc` | app.py:303 | `+ 1` raises a number by one and leaves NULL as NULL |
| `Storage.Bump` | app.py:303 | the update keeps the number of rows and changes only the column of the rows carrying the id, by `Inc` |
| `Storage.BumpFind` | app.py:303-307 | reading the row back after an update gives the old row with the one counter incremented |
| `Storage.BumpKeepsIds` | app.py:303 | an update keeps every row's columns and id, so the table keeps its shape and its ids |
| `Storage.BumpOnlyColumn` | app.py:350-353 | an update leaves every other column of every row as it was |
| `Storage.BumpMissing` | app.py:303 | an update of an id no row carries changes nothing |
| `Storage.BumpTimesCounts` | app.py:303 | n views or ratings of one protocol raise its numeric counter by exactly n |
| `Storage.BumpTimesNull` | app.py:303 | a NULL counter stays NULL however many requests there are |
| `Storage.CounterFor` | app.py:344-353 | "gosto" names the likes, "nao_gosto" the dislikes, and any other value, a missing one included, names none |
| `Storage.NewRow` | app.py:242-271 | an inserted row has exactly the table's columns, the new id, the supplied values, and each other column's declared default |
| `Storage.InsertColumnsInFullSchema` | app.py:26-52 | a new database has every column `save_protocol` inserts into, so saving a dict draft there succeeds |
| `Storage.FreshRowDefaults` | app.py:48-51 | on a new database a saved protocol starts with 0 likes, 0 dislikes, 0 views and the current time |
| `Storage.MigratedSavesNullViews` | app.py:77-87 | on a database reconciled from one without visualizacoes, a protocol saved afterwards starts with NULL views |
| `Storage.MigratedViewsDecl` | app.py:86-87 | after that reconciliation the view counter's declared type is "INTEGER" |
| `Storage.SaveThenRead` | app.py:214-267 | what `save_protocol` inserts, a reader decodes back to the draft's lists and nested blocks |
| `Storage.StatsOf` | app.py:119-149 | the statistics count every row and sum the views; they list at most five popular and five latest protocols, plus the sorted discipline tally; every failure is a server error |
| `Storage.StatsEmpty` | app.py:119-149 | an empty table gives 0 protocols, 0 views and empty listings |
| `Storage.StatsPopularAreHighest` | app.py:125-131 | the popular listing is the top five by likes then views, and no protocol left out outranks one listed |
| `Storage.StatsLatestAreNewest` | app.py:143-148 | the latest listing is the first five rows by creation time, newest first, and no protocol left out is newer than one listed |
| `Storage.StatsCountsDisciplines` | app.py:133-141 | every discipline named by some protocol is listed once, with the number of times it is named |
| `Storage.Database.Create` | app.py:23-53 | a new database file has the full schema, no rows and no id handed out |
| `Storage.Database.Open` | app.py:57-60 | an existing file is taken as it is |
| `Storage.Database.Migrate` | app.py:58-95 | the table becomes the reconciliation of the old table with the required columns; the ids are kept |
| `Storage.Database.Reconcile` | app.py:81-92 | the loop body probes each column and adds it when missing; after the loop the table is the reconciliation of the old one |
| `Storage.Database.Probe` | app.py:82-91 | one pass of the loop body leaves the table as the reconciliation step of the old table, keeping the ids |
| `Storage.Database.Insert` | app.py:242-271 | a value for a missing column fails and changes nothing; otherwise one row is appended with the next id, which is returned |
| `Storage.Database.SaveProtocol` | app.py:203-277 | the save succeeds exactly when the body and its `protocolo` are dicts and the table has every insert column; it then inserts the draft's values and returns the new id; otherwise it is a server error with nothing stored |
| `Storage.Database.ViewProtocol` | app.py:298-331 | the view is counted before anything is read; an unknown id is not found; otherwise the row is decoded for display |
| `Storage.Database.Rate` | app.py:341-370 | an invalid `tipo` is refused with nothing changed; a valid one increments exactly its counter, and both counters are read back |
| `Storage.Database.Search` | app.py:280-295 | the response is the matching rows, newest first, with decoded lists; the first row whose lists do not decode fails the request |
| `Storage.Database.GetStats` | app.py:113-162 | the response is the statistics of the current table, computed by the discipline loop |

## Left out

- The language-model call, the prompt texts and the API key. The reply is a
  parameter: some text, or none when the call raised.
- Flask routing, `request`, `jsonify`, `render_template` and HTTP status
  codes. The decisions they encode are the `Fault` values `BadRequest`,
  `NotFound` and `ServerError`.
- `gerar_qr_code` and the image it embeds in the page.
- The `print` logging. Two prints evaluate an argument that can raise:
  `feedback[:50]` (app.py:191) fails unless the feedback is a text or a
  list, and `protocolo.get(...)` (app.py:207) fails unless `protocolo` is a
  dict. The model keeps these two failures as server errors and drops the
  printed text.
- `json.dumps`, `json.loads` and `repr` internals. They are the fields of
  `Host`, and the round-trip law `Lawful` is a hypothesis of the lemmas that
  need it.
- Floating-point JSON numbers.
- SQLite connections, commits and SQL text. A database file that exists but
  lacks the table is not modelled; `Open` takes the table as given.
- Concurrency: two simultaneous increments of one counter can lose an
  update in the source. The model runs one request at a time.
- `CURRENT_TIMESTAMP` is abstracted to an integer moment (`SqlTime`).
- `Inc`: a counter holding text or a timestamp is returned unchanged, because
  SQLite's numeric conversion of text is not modelled. The application
  never writes such a cell.
- `Names`: column names are compared exactly, whereas SQLite matches them
  without regard to ASCII case. On a table taken as given by `Open`, a
  column spelled in another case would be probed as missing here.
- `DeclDefault`: only the two DEFAULT forms the application writes,
  `... DEFAULT 0` and `... DEFAULT CURRENT_TIMESTAMP`, are recognised. A
  legacy column with another default, such as `INTEGER DEFAULT 1` or
  `TEXT DEFAULT ''`, gets NULL in the model.
- `Inc`: `visualizacoes + 1` is unbounded here. SQLite's 64-bit integer
  overflow is not modelled.
- `TotalViews`: `SUM` is unbounded here. SQLite's 64-bit overflow error is
  not modelled.
- `Like`: `%` and `_` inside the query are matched literally, though SQLite
  treats them as wildcards. LIKE's case folding is modelled as ASCII
  lower-casing. A timestamp cell never matches.
- `CellKey`: text cells in an `ORDER BY` column sort as NULL, where SQLite
  sorts them above numbers.
- `Sort`: ties in `ORDER BY` are returned in table order. SQLite does not
  promise any order among ties.
- `MostCommon`: Python counts `True` with `1` and `False` with `0` in one
  Counter entry; the model counts them separately.
- `DeclOf`: searches from the last column. SQLite keeps column names
  distinct, so this is the only match.
- The response dicts `{"disciplina": k, "count": v}` of the statistics are
  kept as pairs.
- The shape of the quiz entries is not checked beyond being a list.
- The stray text after the program's last line is not Python and is not
  modelled.
