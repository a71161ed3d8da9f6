# Stock-market scraping and analysis pipeline, modelled in Dafny

The system scrapes quotes for the Madrid stock exchange's "Principales
valores" table on CincoDías. It scrapes each configured company's financial
figures (PER, BPA, EBITDA, profit, debt) into an SQLite database through a
bounded pool of worker threads. It then joins both sources into one frame and
runs four analysis stages over it:
- ratios;
- signals;
- a buy/sell/hold recommendation;
- a copy of the joined frame.

The results are concatenated into the final table.

This project models the core of that pipeline and proves what it promises:

- `base.dfy`, module `Base`: `Option`, `Result`, the Python exceptions the
  code can raise or catch, and `Cell`. A `Cell` is a frame cell: `Missing`
  stands for `None`/`NaN`, `NonNumeric` for text that is not a number, and
  `Num` for a number. `Parser` stands for Python's `float()` on text.
- `text.dfy`, module `Text`: the `str` operations the scrapers use, written
  out recursively. These are `in`, counting, `replace` of one character and
  `strip` with Python's whitespace set.
- `finanzas.dfy`, module `Finanzas`: `convertir_num` and `extraer_finanzas`.
  - `convertir_num` handles the sentinels and the Spanish number separators.
  - `extraer_finanzas` is the nested row scan of the parsed tables, written as
    an imperative loop. It is proved equal to a "last row that assigns the
    slot" specification.
- `basedatos.dfy`, module `BaseDatos`: the table-level effects of
  `inicializar_bd` and `procesar_empresa`.
  - A `Database` class holds the `empresas` and `finanzas` tables and their
    AUTOINCREMENT counters.
  - A `Semaphore` class stands for the admission gate.
  - The worker run is a sequential loop over an arbitrary schedule of the
    companies.
- `cotizacion.dfy`, module `Cotizacion`, covers this part of the quote
  scraper:
  - `clean_num`;
  - the search for the captioned table, as a loop;
  - the row filter and projection, as a loop;
  - the cleaning of the four numeric columns;
  - the outcome of one run: which files are written and which exception is
    logged.
- `analisis.dfy`, module `Analisis`:
  - the per-row rules `safe_ratio`, `per_sig`, `bpa_sig` and `recomendar`;
  - the three column-computing stages as row-aligned sequence maps;
  - the final concatenation.

Calls outside the model become parameters:
- the HTTP download and HTML parsing: a `Page` or `Download` value, either a
  failure or the parsed tables;
- the clock: a `fecha` string;
- Python's `float()`: a `Parser`.

## Model

| member | source | states |
|---|---|---|
| Text.Count | proyecto_bolsa_concurrencia/src/scraping_finanzas.py:66 | the number of occurrences of a character is at most the length, and is zero exactly when the character does not occur |
| Text.Delete | proyecto_bolsa_concurrencia/src/scraping_finanzas.py:66 | `replace(c, "")` leaves no `c` and shortens the text by exactly the number of `c` it held |
| Text.Replace | proyecto_bolsa_concurrencia/src/scraping_finanzas.py:66 | `replace(c, d)` keeps the length and changes exactly the positions that held `c` |
| Text.DeleteKeeps | proyecto_bolsa_concurrencia/src/scraping_finanzas.py:66 | deleting one character leaves the count of every other character unchanged |
| Text.ReplaceCounts | proyecto_bolsa_concurrencia/src/scraping_finanzas.py:66 | after replacing `c` by `d`, no `c` is left and `d` occurs as often as `c` and `d` did before |
| Text.ReplaceKeeps | proyecto_bolsa_concurrencia/src/scraping_finanzas.py:66 | replacing `c` by `d` leaves the count of any third character unchanged |
| Text.DeleteConcat | proyecto_bolsa_concurrencia/src/scraping_finanzas.py:66 | deletion distributes over concatenation |
| Text.ReplaceConcat | proyecto_bolsa_concurrencia/src/scraping_finanzas.py:66 | replacement distributes over concatenation |
| Text.CountConcat | proyecto_bolsa_concurrencia/src/scraping_finanzas.py:66 | counts add up over concatenation |
| Text.ContainsAt | proyecto_bolsa_concurrencia/src/scraping_finanzas.py:148-157 | Python's `sub in s` holds exactly when `sub` starts at some position of `s` |
| Text.StripLeft | proyecto_bolsa_concurrencia/src/scraping_cotizacion.py:99 | the result is a suffix that starts with a non-space, and everything dropped was whitespace |
| Text.StripRight | proyecto_bolsa_concurrencia/src/scraping_cotizacion.py:99 | the result is a prefix that ends with a non-space, and everything dropped was whitespace |
| Text.IsSpaceListed | proyecto_bolsa_concurrencia/src/scraping_cotizacion.py:99 | the whitespace `strip()` removes is exactly the 29 code points for which `str.isspace()` holds |
| Text.Strip | proyecto_bolsa_concurrencia/src/scraping_cotizacion.py:99 | `strip()` gives a text no longer than its input that neither starts nor ends with whitespace |
| Text.StripSlice | proyecto_bolsa_concurrencia/src/scraping_cotizacion.py:99 | `strip()` returns the slice of its input between a whitespace-only head and a whitespace-only tail |
| Text.StripTrimmed | proyecto_bolsa_concurrencia/src/scraping_cotizacion.py:99 | stripping an already trimmed text changes nothing |
| Finanzas.IsSentinel | proyecto_bolsa_concurrencia/src/scraping_finanzas.py:64 | the sentinels are exactly `None` and the texts of at most two characters that are all `-`: "", "-" and "--" |
| Finanzas.Normalise | proyecto_bolsa_concurrencia/src/scraping_finanzas.py:66 | the normalised text has no `,` and is shorter than its input by the number of `.` it held |
| Finanzas.NormaliseCounts | proyecto_bolsa_concurrencia/src/scraping_finanzas.py:66 | the normalised text has no `,`; it has as many `.` as the input had `,`; it is shorter by the input's number of `.` |
| Finanzas.NormalisePlain | proyecto_bolsa_concurrencia/src/scraping_finanzas.py:66 | a text without separators is left as it is |
| Finanzas.NormaliseConcat | proyecto_bolsa_concurrencia/src/scraping_finanzas.py:66 | normalisation works piecewise over concatenation |
| Finanzas.NormaliseGrouped | proyecto_bolsa_concurrencia/src/scraping_finanzas.py:66 | a Spanish number `m.u,d` (thousands dot, decimal comma) becomes `mu.d`, e.g. "1.234,5" to "1234.5" |
| Finanzas.NormaliseSeparators | proyecto_bolsa_concurrencia/src/scraping_finanzas.py:66 | a lone `.` disappears and a lone `,` becomes `.` |
| Finanzas.ConvertirNum | proyecto_bolsa_concurrencia/src/scraping_finanzas.py:63-70 | `None`, "", "-" and "--" give `None`; any other text gives what the parser makes of its normalised form, so a rejected text gives `None` and never raises |
| Finanzas.SlotOf | proyecto_bolsa_concurrencia/src/scraping_finanzas.py:148-157 | a label selects the first of "per", "bpa", "ebitda", "benef", "deuda" it contains; a label containing an earlier keyword never selects a later one; none of them gives no slot |
| Finanzas.Writes | proyecto_bolsa_concurrencia/src/scraping_finanzas.py:141-157 | a row with fewer than two cells assigns nothing |
| Finanzas.WritesFirstKeyword | proyecto_bolsa_concurrencia/src/scraping_finanzas.py:141-157 | a row of two or more cells assigns the slot of the first keyword in the order per, bpa, ebitda, benef, deuda that its label contains, and nothing when its label contains none |
| Finanzas.Extraction | proyecto_bolsa_concurrencia/src/scraping_finanzas.py:137-165 | each of the five returned fields is the value of the last row, over all tables in document order, that assigns it |
| Finanzas.LastWriteSnoc | proyecto_bolsa_concurrencia/src/scraping_finanzas.py:139-157 | one more row changes only the slot it assigns, to its converted second cell; a short or unlabeled row changes nothing |
| Finanzas.LastWriteIsLastRow | proyecto_bolsa_concurrencia/src/scraping_finanzas.py:139-157 | if row `j` assigns a slot and no later row does, the slot holds row `j`'s converted value |
| Finanzas.LastWriteUnassigned | proyecto_bolsa_concurrencia/src/scraping_finanzas.py:137 | a slot no row assigns stays `None` |
| Finanzas.AsignarFila | proyecto_bolsa_concurrencia/src/scraping_finanzas.py:141-157 | one row changes exactly the slot its label selects, to its converted second cell, and a row with fewer than two cells changes nothing |
| Finanzas.ExtraerFinanzas | proyecto_bolsa_concurrencia/src/scraping_finanzas.py:133-165 | the nested loop over tables and rows returns exactly the last-write fields |
| BaseDatos.TickerMapDomain | proyecto_bolsa_concurrencia/src/scraping_finanzas.py:112-113 | the ticker-to-id map built from `SELECT id, ticker` has exactly the tickers of the table as keys |
| BaseDatos.TickerMapAt | proyecto_bolsa_concurrencia/src/scraping_finanzas.py:112-113 | with unique tickers, every row's ticker maps to that row's id |
| BaseDatos.TickerMapExtends | proyecto_bolsa_concurrencia/src/scraping_finanzas.py:105-113 | adding rows after the existing ones keeps every existing ticker's id |
| BaseDatos.TickerMapValues | proyecto_bolsa_concurrencia/src/scraping_finanzas.py:112-113 | in the dictionary comprehension the last row wins, and every value is the id of a row with that ticker |
| BaseDatos.MapaTrasInsertar | proyecto_bolsa_concurrencia/src/scraping_finanzas.py:105-113 | the map read back after the insert loop has every configured ticker as a key, its keys are exactly the earlier and the configured tickers, and every earlier ticker keeps its id |
| BaseDatos.HasTickerSnoc | proyecto_bolsa_concurrencia/src/scraping_finanzas.py:105-109 | an appended row adds its own ticker and keeps every earlier one |
| BaseDatos.ConfiguredPrefix | proyecto_bolsa_concurrencia/src/scraping_finanzas.py:105 | one more configured company adds exactly its own ticker to the configured set |
| BaseDatos.Insertadas | proyecto_bolsa_concurrencia/src/scraping_finanzas.py:105-109 | the reference rows of the insert loop: at most one per configured company, with ids counting up from the next id |
| BaseDatos.InsertadasStep | proyecto_bolsa_concurrencia/src/scraping_finanzas.py:105-109 | one more configured company is appended, with its name, ticker and url and the next id, exactly when its ticker is not in the table yet |
| BaseDatos.InsertadasTickers | proyecto_bolsa_concurrencia/src/scraping_finanzas.py:105-109 | after the loop the table's tickers are exactly the earlier tickers plus the configured ones |
| BaseDatos.InsertadasKnown | proyecto_bolsa_concurrencia/src/scraping_finanzas.py:105-109 | when every configured ticker is already in the table, nothing is inserted |
| BaseDatos.InsertadasFromConfig | proyecto_bolsa_concurrencia/src/scraping_finanzas.py:105-109 | every inserted row copies the name, ticker and url of the first configured company with that ticker, a ticker that was not in the table before |
| BaseDatos.FromConfigPrefix | proyecto_bolsa_concurrencia/src/scraping_finanzas.py:105-109 | a row that copies a company among the first n configured ones still does so in the whole configuration |
| BaseDatos.Database.constructor | proyecto_bolsa_concurrencia/src/scraping_finanzas.py:82-103 | freshly created tables are empty and consistent |
| BaseDatos.Database.InsertOrIgnore | proyecto_bolsa_concurrencia/src/scraping_finanzas.py:106-109 | a known ticker is a no-op; a new one is appended with the next id; tickers stay unique; the table's tickers afterwards are exactly the earlier ones plus the inserted one; `finanzas` is untouched |
| BaseDatos.Database.InsertarEmpresas | proyecto_bolsa_concurrencia/src/scraping_finanzas.py:105-111 | the insert loop appends exactly the reference rows `Insertadas` and advances the id counter by their number; afterwards the table's tickers are exactly the earlier ones plus the configured ones; `finanzas` is untouched; nothing changes when every configured ticker was already there |
| BaseDatos.Database.InsertarSiguiente | proyecto_bolsa_concurrencia/src/scraping_finanzas.py:105-109 | one turn of the insert loop moves the table from the reference rows of the first i companies to those of the first i+1 |
| BaseDatos.Database.InicializarBd | proyecto_bolsa_concurrencia/src/scraping_finanzas.py:77-116 | `empresas` becomes its earlier rows followed by the reference rows `Insertadas`, and `finanzas` is untouched; the returned map is the table's map, its keys are exactly the earlier tickers plus the configured ones, and every earlier ticker keeps its id |
| BaseDatos.InicializarTwice | proyecto_bolsa_concurrencia/src/scraping_finanzas.py:77-116 | running the initialisation twice gives the same ticker-to-id map |
| BaseDatos.Database.InsertFinanzas | proyecto_bolsa_concurrencia/src/scraping_finanzas.py:192-199 | the `INSERT INTO finanzas` appends exactly one row with the next id and leaves `empresas` alone |
| BaseDatos.Semaphore.constructor | proyecto_bolsa_concurrencia/src/scraping_finanzas.py:223 | the gate starts with the configured number of slots |
| BaseDatos.Semaphore.Acquire | proyecto_bolsa_concurrencia/src/scraping_finanzas.py:173 | acquiring takes one free slot |
| BaseDatos.Semaphore.Release | proyecto_bolsa_concurrencia/src/scraping_finanzas.py:210 | releasing gives one slot back |
| BaseDatos.ProcesarEmpresa | proyecto_bolsa_concurrencia/src/scraping_finanzas.py:172-210 | on a read page and a known ticker, exactly one row for `mapa[ticker]` with the extracted fields and the next id is appended; on a failed fetch or a ticker missing from the map (the swallowed `KeyError`) nothing is; `empresas` is untouched and the slot is given back either way |
| BaseDatos.CountParsed | proyecto_bolsa_concurrencia/src/scraping_finanzas.py:226-236 | the number of scheduled companies whose page was read is at most the number scheduled |
| BaseDatos.CountParsedIsSize | proyecto_bolsa_concurrencia/src/scraping_finanzas.py:226-236 | with no company scheduled twice, that number is the size of the set of such companies |
| BaseDatos.ScheduleCount | proyecto_bolsa_concurrencia/src/scraping_finanzas.py:226-236 | a schedule covering every company once counts exactly the companies whose page was read |
| BaseDatos.FilasNuevas | proyecto_bolsa_concurrencia/src/scraping_finanzas.py:226-236 | the reference rows of a schedule: at most one per scheduled company, with ids counting up from the next id |
| BaseDatos.FilasNuevasStep | proyecto_bolsa_concurrencia/src/scraping_finanzas.py:226-236 | one more scheduled company appends its own row exactly when it reaches its INSERT |
| BaseDatos.FilasNuevasCount | proyecto_bolsa_concurrencia/src/scraping_finanzas.py:226-236 | when every configured ticker is in the map, the schedule appends one row per read page |
| BaseDatos.FilasNuevasHasRow | proyecto_bolsa_concurrencia/src/scraping_finanzas.py:183-199 | every scheduled company whose page was read and whose ticker is in the map has a row with its id, its date and its extracted fields |
| BaseDatos.ProcesarSiguiente | proyecto_bolsa_concurrencia/src/scraping_finanzas.py:226-236 | one turn of the schedule moves the table from the reference rows of the first k companies to those of the first k+1 |
| BaseDatos.ProcesarTodas | proyecto_bolsa_concurrencia/src/scraping_finanzas.py:226-236 | processing the schedule one company at a time leaves `empresas` untouched and appends to `finanzas` exactly the reference rows of the schedule, one per read page |
| BaseDatos.EjecutarScrapingFinanzas | proyecto_bolsa_concurrencia/src/scraping_finanzas.py:217-236 | for any order of the companies: `empresas` becomes its earlier rows followed by the reference rows `Insertadas`; the ticker map holds exactly the earlier tickers plus the configured ones, with earlier ids kept; `finanzas` is its earlier rows followed by the reference rows of the schedule; it grows by exactly the number of companies whose page was read |
| Cotizacion.NormaliseQuote | proyecto_bolsa_concurrencia/src/scraping_cotizacion.py:46 | the normalised quote text holds neither `,` nor `%` |
| Cotizacion.NormaliseQuoteCounts | proyecto_bolsa_concurrencia/src/scraping_cotizacion.py:46 | the normalised quote text has neither `,` nor `%`, and as many `.` as the input had `,` |
| Cotizacion.NormaliseQuotePercent | proyecto_bolsa_concurrencia/src/scraping_cotizacion.py:46 | a percentage `x,y%` becomes `x.y`, e.g. "2,5%" to "2.5" |
| Cotizacion.QuoteSeparators | proyecto_bolsa_concurrencia/src/scraping_cotizacion.py:46 | a lone `,` becomes `.` and a lone `%` disappears |
| Cotizacion.CleanNum | proyecto_bolsa_concurrencia/src/scraping_cotizacion.py:42-50 | `None`, "", "--" and "-" give `None`; any other text gives what the parser makes of its normalised form, so a rejected text gives `None` |
| Cotizacion.CleanNumAgrees | proyecto_bolsa_concurrencia/src/scraping_cotizacion.py:42-50 | on text without `%`, `clean_num` and `convertir_num` give the same result |
| Cotizacion.FirstCaption | proyecto_bolsa_concurrencia/src/scraping_cotizacion.py:75-83 | the chosen table contains "Principales valores" and no earlier table does; no choice means no table does |
| Cotizacion.BuscarTabla | proyecto_bolsa_concurrencia/src/scraping_cotizacion.py:75-79 | the search loop with `break` finds exactly the first captioned table |
| Cotizacion.FirstCaptionUnique | proyecto_bolsa_concurrencia/src/scraping_cotizacion.py:75-79 | any index that is captioned with no captioned table before it (or no index when none is captioned) is the one the search picks |
| Cotizacion.KeepGuards | proyecto_bolsa_concurrencia/src/scraping_cotizacion.py:89-103 | a row without `th`, without an anchor in it or with fewer than five `td`s is skipped; any other row is kept |
| Cotizacion.ProjectFields | proyecto_bolsa_concurrencia/src/scraping_cotizacion.py:98-113 | a kept row becomes the host followed by the stripped `href`, the anchor text, `td`s 0 and 1, the timestamp, and `td`s 3 and 4; `td` 2 is not read |
| Cotizacion.KeptRows | proyecto_bolsa_concurrencia/src/scraping_cotizacion.py:85-113 | no more rows come out than went in, and every row carries the single timestamp taken before the loop |
| Cotizacion.KeptIndices | proyecto_bolsa_concurrencia/src/scraping_cotizacion.py:89-103 | the kept positions are exactly the rows with a `th`, an anchor in it and at least five `td`, in increasing order |
| Cotizacion.KeptRowsInOrder | proyecto_bolsa_concurrencia/src/scraping_cotizacion.py:89-113 | the j-th output row is the projection of the j-th kept body row: anchor text as name, host plus stripped href as link, `td` 0, 1, 3, 4 as value, var, max, min |
| Cotizacion.ThirdCellIgnored | proyecto_bolsa_concurrencia/src/scraping_cotizacion.py:105-113 | changing a row's `td` 2 neither changes whether it is kept nor what it yields |
| Cotizacion.ExtraerFilas | proyecto_bolsa_concurrencia/src/scraping_cotizacion.py:85-113 | the row loop returns exactly the filtered and projected rows |
| Cotizacion.LimpiarFilas | proyecto_bolsa_concurrencia/src/scraping_cotizacion.py:127-131 | cleaning keeps the row count, carries link, name and datetime over, and applies `clean_num` to value, var, max and min only |
| Cotizacion.EjecutarScrapingCotizacion | proyecto_bolsa_concurrencia/src/scraping_cotizacion.py:53-142 | a failed fetch, a missing caption (the `RuntimeError`) or a missing `tbody` writes no file and logs the error; no kept rows writes an empty RAW file and then fails with `KeyError`; otherwise it writes the raw rows and their cleaned form |
| Analisis.SafeRatio | proyecto_bolsa_concurrencia/src/analisis.py:66-71 | absent exactly when `a` is missing, `b` is missing or `b == 0`; the quotient exactly when both are numbers and `b != 0`; `TypeError` exactly when text reaches the division |
| Analisis.SafeRatioTotal | proyecto_bolsa_concurrencia/src/analisis.py:66-71 | on numeric or missing operands `safe_ratio` never raises |
| Analisis.CalcularRatios | proyecto_bolsa_concurrencia/src/analisis.py:73-77 | one `deuda_ebitda` and one `ebitda_beneficio` per row, in row order, equal to `safe_ratio(deuda, ebitda)` and `safe_ratio(ebitda, beneficio)`; the stage fails exactly when some row raises |
| Analisis.PublishedRatios | proyecto_bolsa_concurrencia/src/analisis.py:73-77 | `resultados["ratios"]` is present exactly when `safe_ratio` succeeds on every row, and then holds one ratio pair per row in row order |
| Analisis.PerSig | proyecto_bolsa_concurrencia/src/analisis.py:87-98 | unknown exactly for non-numbers; cheap below 12, medium from 12 to below 20, expensive from 20 |
| Analisis.BpaSig | proyecto_bolsa_concurrencia/src/analisis.py:100-111 | unknown exactly for non-numbers; weak below 0.5 (negatives included), medium from 0.5 to below 1.5, high from 1.5 |
| Analisis.PerSigMonotone | proyecto_bolsa_concurrencia/src/analisis.py:92-96 | a larger PER never gets a cheaper label |
| Analisis.BpaSigMonotone | proyecto_bolsa_concurrencia/src/analisis.py:105-109 | a larger BPA never gets a weaker label |
| Analisis.SignalBoundaries | proyecto_bolsa_concurrencia/src/analisis.py:87-111 | 11.9 is cheap, 12 and 19.99 medium, 20 expensive, a missing PER unknown; -1 is weak, 0.5 medium, 1.5 high |
| Analisis.CalcularSenales | proyecto_bolsa_concurrencia/src/analisis.py:113-117 | one pair of labels per row, in row order, equal to `per_sig(per)` and `bpa_sig(bpa)` |
| Analisis.Decidir | proyecto_bolsa_concurrencia/src/analisis.py:132-144 | buy exactly under the buy rule (PER cheap or medium, BPA medium or high, debt ratio absent or at most 6); sell exactly under the sell rule (PER expensive, BPA weak, debt ratio absent or at least 4); hold otherwise |
| Analisis.RulesDisjoint | proyecto_bolsa_concurrencia/src/analisis.py:134-142 | no input satisfies both the buy and the sell rule |
| Analisis.DecisionExamples | proyecto_bolsa_concurrencia/src/analisis.py:134-144 | (cheap, high, 5) buys; (cheap, high, 7) holds; (expensive, weak, absent) sells; (medium, weak, anything) holds |
| Analisis.Recomendar | proyecto_bolsa_concurrencia/src/analisis.py:127-144 | a row without the stage columns always gets "Mantener"; a row with them gets the decision on its labels and debt ratio |
| Analisis.CalcularRecomendacion | proyecto_bolsa_concurrencia/src/analisis.py:146-149 | one decision per row of the frame it is given, in row order |
| Analisis.AsGiven | proyecto_bolsa_concurrencia/src/analisis.py:190 | the frame handed to the recommendation stage is `df` row by row, with no stage columns |
| Analisis.WithStageColumns | proyecto_bolsa_concurrencia/src/analisis.py:203-210 | `df` extended positionally with the ratio and signal columns |
| Analisis.Unir | proyecto_bolsa_concurrencia/src/analisis.py:203-210 | the first missing result among ratios, signals and recommendation raises `KeyError`; otherwise the rows of `df` in the same order and number, each extended with the same row of every stage result |
| Analisis.EjecutarAnalisis | proyecto_bolsa_concurrencia/src/analisis.py:185-210 | as written: the final table exists exactly when the ratio stage succeeds, otherwise `KeyError("ratios")`; it has `df`'s rows in order with their ratios and signals |
| Analisis.RecomendacionSiempreMantener | proyecto_bolsa_concurrencia/src/analisis.py:188-201 | as written, every row of the final table is recommended "Mantener" |
| Analisis.EjecutarAnalisisCorregido | proyecto_bolsa_concurrencia/src/analisis.py:185-210 | with the recommendation given the stage outputs, each row's recommendation is the decision on its own signals and debt ratio |
| Analisis.RecomendacionIgnoraSenales | proyecto_bolsa_concurrencia/src/analisis.py:190 | a cheap, profitable, barely indebted company is held as written but bought when the stage gets the ratio and signal columns |
| Analisis.AllAbsentRow | proyecto_bolsa_concurrencia/src/analisis.py:87-144 | a company with no financial figures is still classified: unknown, unknown, hold |

## Left out

- Threads, the semaphore's blocking, locks and joins: the worker pool is a sequential loop over an arbitrary schedule of the companies, and the four analysis stages are function composition. The bound on concurrently active workers is therefore not modelled.
- HTTP downloads, headers and timeouts: a download is a parameter that is either a failure or the parsed tables.
- HTML parsing with BeautifulSoup, `get_text(strip=True)` and `str.lower`: rows arrive as cell texts already stripped, and labels arrive already lowercased.
- Python's `float()`: it is an abstract `Parser`. `NaN` and the infinities have no counterpart in `real`, so the model assumes the parser reports them as rejected.
- IEEE rounding of `a / b`: real division is exact.
- SQLite mechanics (connections, commit, the database file, write errors) and the SQL JOIN and CSV export after the worker run: only the table-level effects of `inicializar_bd` and `procesar_empresa` are modelled.
- pandas `merge` of the two cleaned files into `df`, the CSV and Excel writes, and `procesar_dataset_unido`: the joined frame is an input, and the copy stage contributes only its path.
- The date-stamped file names of the RAW and analysis outputs, logging, `print`, `os.makedirs` and main.py, which only sequences the three runs.
- Numeric text in a figure cell: a cell holding text that `float()` accepts, such as "15", has no `Cell` case. `per_sig` would classify it, while `safe_ratio` would raise `TypeError`. The figure columns come from SQLite REAL columns, so the frame holds numbers, missing values or non-numeric text and never such a cell.
- BaseDatos.Database.InsertOrIgnore: the AUTOINCREMENT counter is idealised. An ignored insert is taken to use up no id, so the ids of new companies count up without gaps; SQLite does not promise that.
- BaseDatos.Semaphore.Acquire: requires a free slot instead of blocking, since the sequential run never waits.

## Findings

| source | as written | input that shows it | evidently intended | confidence | as-written member | corrected member |
|---|---|---|---|---|---|---|
| proyecto_bolsa_concurrencia/src/analisis.py:190 | the recommendation thread gets `df`, which has no `per_señal`, `bpa_señal` or `deuda_ebitda`, so `recomendar` always uses its defaults and returns "Mantener" | one company with PER 8, BPA 2, EBITDA 10, profit 5 and debt 20 | the recommendation stage reads the ratio and signal outputs it waits for, so that company is bought | not executed | Analisis.EjecutarAnalisis | Analisis.EjecutarAnalisisCorregido |
