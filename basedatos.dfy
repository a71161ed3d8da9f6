/**
 * The table-level effects of scraping_finanzas.py: `inicializar_bd`
 * (INSERT OR IGNORE of the configured companies into `empresas`, whose
 * `ticker` is UNIQUE, then the ticker-to-id map), `procesar_empresa`
 * (one append to `finanzas`) and the worker run, taken one company at a
 * time in an arbitrary order.
 */
module BaseDatos {
  import opened Base
  import Finanzas

  /** One configured company (an element of `EMPRESAS`). */
  datatype Empresa = Empresa(nombre: string, ticker: string, url: string)

  /** A row of `empresas`. */
  datatype EmpresaRow = EmpresaRow(id: nat, nombre: string, ticker: string, url: string)

  /** A row of `finanzas`. */
  datatype FinanzasRow = FinanzasRow(id: nat, empresaId: nat, fechaRegistro: string, datos: Finanzas.Fields)

  predicate HasTicker(rows: seq<EmpresaRow>, t: string) {
    exists i | 0 <= i < |rows| :: rows[i].ticker == t
  }

  /** Some configured company has ticker `t`. */
  predicate Configured(config: seq<Empresa>, t: string) {
    exists k | 0 <= k < |config| :: config[k].ticker == t
  }

  /** Taking one more configured company adds exactly its own ticker. */
  lemma ConfiguredPrefix(config: seq<Empresa>, i: nat)
    requires i < |config|
    ensures forall t :: Configured(config[..i + 1], t) <==> Configured(config[..i], t) || config[i].ticker == t
  {
    forall t
      ensures Configured(config[..i + 1], t) <==> Configured(config[..i], t) || config[i].ticker == t
    {
      var before, after := config[..i], config[..i + 1];
      if Configured(before, t) {
        var k :| 0 <= k < |before| && before[k].ticker == t;
        assert after[k].ticker == t;
      }
      if config[i].ticker == t {
        assert after[i].ticker == t;
      }
    }
  }

  /**
   * Reference definition of the rows the `INSERT OR IGNORE` loop appends to
   * a table `rows` whose next id is `next`: in configuration order, one row
   * per company whose ticker is neither in `rows` nor taken by an earlier
   * company, with ids counting up from `next`.
   */
  function Insertadas(rows: seq<EmpresaRow>, next: nat, config: seq<Empresa>): (nuevas: seq<EmpresaRow>)
    ensures |nuevas| <= |config|
    ensures forall j :: 0 <= j < |nuevas| ==> nuevas[j].id == next + j
  {
    if config == [] then []
    else
      var previas := Insertadas(rows, next, config[..|config| - 1]);
      var e := config[|config| - 1];
      if HasTicker(rows + previas, e.ticker) then previas
      else previas + [EmpresaRow(next + |previas|, e.nombre, e.ticker, e.url)]
  }

  /** One more configured company is inserted exactly when its ticker is not in the table yet. */
  lemma InsertadasStep(rows: seq<EmpresaRow>, next: nat, config: seq<Empresa>, i: nat)
    requires i < |config|
    ensures var previas, e := Insertadas(rows, next, config[..i]), config[i];
            Insertadas(rows, next, config[..i + 1]) ==
              if HasTicker(rows + previas, e.ticker) then previas
              else previas + [EmpresaRow(next + |previas|, e.nombre, e.ticker, e.url)]
  {
    assert config[..i + 1][..i] == config[..i];
  }

  /** After the loop the table's tickers are exactly the earlier ones and the configured ones. */
  lemma {:induction false} InsertadasTickers(rows: seq<EmpresaRow>, next: nat, config: seq<Empresa>)
    ensures forall t :: HasTicker(rows + Insertadas(rows, next, config), t) <==> HasTicker(rows, t) || Configured(config, t)
  {
    if config == [] {
      assert rows + [] == rows;
    } else {
      var n := |config| - 1;
      var previas := Insertadas(rows, next, config[..n]);
      var e := config[n];
      InsertadasTickers(rows, next, config[..n]);
      ConfiguredPrefix(config, n);
      assert config[..n + 1] == config;
      if !HasTicker(rows + previas, e.ticker) {
        var r := EmpresaRow(next + |previas|, e.nombre, e.ticker, e.url);
        assert rows + (previas + [r]) == (rows + previas) + [r];
        forall t {
          HasTickerSnoc(rows + previas, r, t);
        }
      }
    }
  }

  /** When every configured ticker is already in the table, nothing is inserted. */
  lemma {:induction false} InsertadasKnown(rows: seq<EmpresaRow>, next: nat, config: seq<Empresa>)
    requires forall k :: 0 <= k < |config| ==> HasTicker(rows, config[k].ticker)
    ensures Insertadas(rows, next, config) == []
  {
    if config != [] {
      var n := |config| - 1;
      InsertadasKnown(rows, next, config[..n]);
      assert rows + [] == rows;
      assert HasTicker(rows, config[n].ticker);
    }
  }

  /**
   * `r` carries the name, ticker and url of configured company `k`, whose
   * ticker was not in `rows` and is not taken by an earlier company.
   */
  predicate FromConfig(rows: seq<EmpresaRow>, config: seq<Empresa>, r: EmpresaRow) {
    exists k | 0 <= k < |config| ::
      && r == EmpresaRow(r.id, config[k].nombre, config[k].ticker, config[k].url)
      && !HasTicker(rows, config[k].ticker)
      && forall m | 0 <= m < k :: config[m].ticker != config[k].ticker
  }

  lemma FromConfigPrefix(rows: seq<EmpresaRow>, config: seq<Empresa>, n: nat, r: EmpresaRow)
    requires n <= |config| && FromConfig(rows, config[..n], r)
    ensures FromConfig(rows, config, r)
  {
    var pre := config[..n];
    var k :| 0 <= k < |pre| && r == EmpresaRow(r.id, pre[k].nombre, pre[k].ticker, pre[k].url)
             && !HasTicker(rows, pre[k].ticker) && forall m | 0 <= m < k :: pre[m].ticker != pre[k].ticker;
    assert forall m | 0 <= m <= k :: pre[m] == config[m];
  }

  /**
   * Every inserted row copies the name, ticker and url of the first
   * configured company with that ticker, which was not in the table before.
   */
  lemma {:induction false} InsertadasFromConfig(rows: seq<EmpresaRow>, next: nat, config: seq<Empresa>)
    ensures forall j :: 0 <= j < |Insertadas(rows, next, config)| ==>
              FromConfig(rows, config, Insertadas(rows, next, config)[j])
  {
    if config != [] {
      var n := |config| - 1;
      var previas := Insertadas(rows, next, config[..n]);
      var nuevas := Insertadas(rows, next, config);
      var e := config[n];
      InsertadasFromConfig(rows, next, config[..n]);
      forall j | 0 <= j < |previas|
        ensures FromConfig(rows, config, previas[j])
      {
        FromConfigPrefix(rows, config, n, previas[j]);
      }
      if !HasTicker(rows + previas, e.ticker) {
        InsertadasTickers(rows, next, config[..n]);
        assert !HasTicker(rows, e.ticker) && !Configured(config[..n], e.ticker);
        assert forall m | 0 <= m < n :: config[..n][m] == config[m];
        var r := nuevas[|previas|];
        assert r == EmpresaRow(next + |previas|, e.nombre, e.ticker, e.url);
        assert FromConfig(rows, config, r);
      }
    }
  }

  ghost predicate UniqueTickers(rows: seq<EmpresaRow>) {
    forall i, j :: 0 <= i < j < |rows| ==> rows[i].ticker != rows[j].ticker
  }

  /** `{t: i for i, t in cur.fetchall()}` over `SELECT id, ticker`: a later row overrides an earlier one. */
  function TickerMap(rows: seq<EmpresaRow>): map<string, nat> {
    if rows == [] then map[]
    else TickerMap(rows[..|rows| - 1])[rows[|rows| - 1].ticker := rows[|rows| - 1].id]
  }

  /** The dictionary comprehension lets the last row win and takes every value from a row with that ticker. */
  lemma {:induction false} TickerMapValues(rows: seq<EmpresaRow>)
    ensures rows != [] ==> var r := rows[|rows| - 1]; r.ticker in TickerMap(rows) && TickerMap(rows)[r.ticker] == r.id
    ensures forall t :: t in TickerMap(rows) ==>
              exists i :: 0 <= i < |rows| && rows[i].ticker == t && rows[i].id == TickerMap(rows)[t]
  {
    if rows != [] {
      var before := rows[..|rows| - 1];
      TickerMapValues(before);
      assert forall i :: 0 <= i < |before| ==> before[i] == rows[i];
    }
  }

  /** A row appended to a table holds its own ticker and keeps every earlier one. */
  lemma HasTickerSnoc(rows: seq<EmpresaRow>, r: EmpresaRow, t: string)
    ensures HasTicker(rows + [r], t) <==> HasTicker(rows, t) || r.ticker == t
  {
    var after := rows + [r];
    if HasTicker(rows, t) {
      var i :| 0 <= i < |rows| && rows[i].ticker == t;
      assert after[i].ticker == t;
    }
    if r.ticker == t {
      assert after[|rows|].ticker == t;
    }
  }

  /** The map has exactly the tickers of the table. */
  lemma {:induction false} TickerMapDomain(rows: seq<EmpresaRow>)
    ensures forall t :: t in TickerMap(rows) <==> HasTicker(rows, t)
  {
    if rows != [] {
      var init := rows[..|rows| - 1];
      TickerMapDomain(init);
      assert rows == init + [rows[|rows| - 1]];
      forall t {
        HasTickerSnoc(init, rows[|rows| - 1], t);
      }
    }
  }

  /** With unique tickers, the map sends each row's ticker to that row's id. */
  lemma {:induction false} TickerMapAt(rows: seq<EmpresaRow>, i: nat)
    requires UniqueTickers(rows) && i < |rows|
    ensures rows[i].ticker in TickerMap(rows) && TickerMap(rows)[rows[i].ticker] == rows[i].id
  {
    if i < |rows| - 1 {
      var init := rows[..|rows| - 1];
      TickerMapAt(init, i);
    }
  }

  /** Appending rows with new tickers keeps every entry of the old map. */
  lemma PrefixOfConcat(a: seq<EmpresaRow>, b: seq<EmpresaRow>)
    ensures (a + b)[..|a|] == a
  {
  }

  /**
   * The map read back after the insert loop: every configured ticker is a
   * key, the keys are exactly the earlier and the configured tickers, and
   * every earlier ticker keeps its id.
   */
  lemma MapaTrasInsertar(before: seq<EmpresaRow>, nuevas: seq<EmpresaRow>, config: seq<Empresa>)
    requires UniqueTickers(before + nuevas)
    requires forall t :: HasTicker(before + nuevas, t) <==> HasTicker(before, t) || Configured(config, t)
    ensures forall k :: 0 <= k < |config| ==> config[k].ticker in TickerMap(before + nuevas)
    ensures forall t :: t in TickerMap(before + nuevas) <==> t in TickerMap(before) || Configured(config, t)
    ensures forall t :: t in TickerMap(before) ==>
              t in TickerMap(before + nuevas) && TickerMap(before + nuevas)[t] == TickerMap(before)[t]
  {
    var after := before + nuevas;
    TickerMapDomain(before);
    TickerMapDomain(after);
    assert after[..|before|] == before;
    TickerMapExtends(before, after);
    forall k | 0 <= k < |config|
      ensures config[k].ticker in TickerMap(after)
    {
      assert Configured(config, config[k].ticker);
    }
  }

  lemma TickerMapExtends(before: seq<EmpresaRow>, after: seq<EmpresaRow>)
    requires |before| <= |after| && after[..|before|] == before && UniqueTickers(after)
    ensures forall t :: t in TickerMap(before) ==> t in TickerMap(after) && TickerMap(after)[t] == TickerMap(before)[t]
  {
    TickerMapDomain(before);
    forall t | t in TickerMap(before)
      ensures t in TickerMap(after) && TickerMap(after)[t] == TickerMap(before)[t]
    {
      var i :| 0 <= i < |before| && before[i].ticker == t;
      assert after[i] == before[i];
      TickerMapAt(before, i);
      TickerMapAt(after, i);
    }
  }

  /** The SQLite file `finanzas_empresas.db`: its two tables and their AUTOINCREMENT counters. */
  class Database {
    var empresas: seq<EmpresaRow>
    var finanzas: seq<FinanzasRow>
    var nextEmpresaId: nat
    var nextFinanzasId: nat

    /** `ticker` is UNIQUE; ids are handed out in increasing order and below the counters. */
    ghost predicate Valid()
      reads this
    {
      && UniqueTickers(empresas)
      && 1 <= nextEmpresaId && 1 <= nextFinanzasId
      && (forall i :: 0 <= i < |empresas| ==> 1 <= empresas[i].id < nextEmpresaId)
      && (forall i, j :: 0 <= i < j < |empresas| ==> empresas[i].id < empresas[j].id)
      && (forall i :: 0 <= i < |finanzas| ==> 1 <= finanzas[i].id < nextFinanzasId)
      && (forall i, j :: 0 <= i < j < |finanzas| ==> finanzas[i].id < finanzas[j].id)
    }

    /** The ticker-to-id map of the current `empresas` table. */
    function IdMap(): map<string, nat>
      reads this
    {
      TickerMap(empresas)
    }

    /** A new database file after both `CREATE TABLE IF NOT EXISTS`: two empty tables. */
    constructor ()
      ensures Valid()
      ensures empresas == [] && finanzas == []
    {
      empresas, finanzas := [], [];
      nextEmpresaId, nextFinanzasId := 1, 1;
    }

    /** `INSERT OR IGNORE INTO empresas`: a known ticker is a no-op, a new one gets the next id. */
    method InsertOrIgnore(e: Empresa)
      requires Valid()
      modifies this
      ensures Valid()
      ensures finanzas == old(finanzas) && nextFinanzasId == old(nextFinanzasId)
      ensures HasTicker(old(empresas), e.ticker) ==>
                empresas == old(empresas) && nextEmpresaId == old(nextEmpresaId)
      ensures !HasTicker(old(empresas), e.ticker) ==>
                && empresas == old(empresas) + [EmpresaRow(old(nextEmpresaId), e.nombre, e.ticker, e.url)]
                && nextEmpresaId == old(nextEmpresaId) + 1
      ensures forall t :: HasTicker(empresas, t) <==> HasTicker(old(empresas), t) || t == e.ticker
    {
      if !HasTicker(empresas, e.ticker) {
        var r := EmpresaRow(nextEmpresaId, e.nombre, e.ticker, e.url);
        forall t {
          HasTickerSnoc(empresas, r, t);
        }
        empresas := empresas + [r];
        nextEmpresaId := nextEmpresaId + 1;
      }
    }

    /** The `INSERT OR IGNORE` loop of `inicializar_bd` over the configured companies. */
    method InsertarEmpresas(config: seq<Empresa>)
      requires Valid()
      modifies this
      ensures Valid()
      ensures finanzas == old(finanzas) && nextFinanzasId == old(nextFinanzasId)
      ensures empresas == old(empresas) + Insertadas(old(empresas), old(nextEmpresaId), config)
      ensures nextEmpresaId == old(nextEmpresaId) + |Insertadas(old(empresas), old(nextEmpresaId), config)|
      ensures forall k :: 0 <= k < |config| ==> HasTicker(empresas, config[k].ticker)
      ensures forall t :: HasTicker(empresas, t) <==> HasTicker(old(empresas), t) || Configured(config, t)
      ensures (forall k :: 0 <= k < |config| ==> HasTicker(old(empresas), config[k].ticker)) ==>
                empresas == old(empresas) && nextEmpresaId == old(nextEmpresaId)
    {
      ghost var rows, next := empresas, nextEmpresaId;
      var i := 0;
      while i < |config|
        invariant 0 <= i <= |config|
        invariant Valid()
        invariant finanzas == old(finanzas) && nextFinanzasId == old(nextFinanzasId)
        invariant empresas == rows + Insertadas(rows, next, config[..i])
        invariant nextEmpresaId == next + |Insertadas(rows, next, config[..i])|
      {
        InsertarSiguiente(config, i, rows, next);
        i := i + 1;
      }
      assert config[..|config|] == config;
      InsertadasTickers(rows, next, config);
      forall k | 0 <= k < |config|
        ensures HasTicker(empresas, config[k].ticker)
      {
        assert Configured(config, config[k].ticker);
      }
      if forall k :: 0 <= k < |config| ==> HasTicker(rows, config[k].ticker) {
        InsertadasKnown(rows, next, config);
      }
    }

    /** One turn of the insert loop: `INSERT OR IGNORE` of configured company `i`. */
    method InsertarSiguiente(config: seq<Empresa>, i: nat, ghost rows: seq<EmpresaRow>, ghost next: nat)
      requires Valid() && i < |config|
      requires empresas == rows + Insertadas(rows, next, config[..i])
      requires nextEmpresaId == next + |Insertadas(rows, next, config[..i])|
      modifies this
      ensures Valid()
      ensures finanzas == old(finanzas) && nextFinanzasId == old(nextFinanzasId)
      ensures empresas == rows + Insertadas(rows, next, config[..i + 1])
      ensures nextEmpresaId == next + |Insertadas(rows, next, config[..i + 1])|
    {
      var e := config[i];
      ghost var previas := Insertadas(rows, next, config[..i]);
      InsertadasStep(rows, next, config, i);
      if HasTicker(empresas, e.ticker) {
        InsertOrIgnore(e);
      } else {
        ghost var r := EmpresaRow(next + |previas|, e.nombre, e.ticker, e.url);
        assert (rows + previas) + [r] == rows + (previas + [r]);
        InsertOrIgnore(e);
      }
    }

    /**
     * `inicializar_bd` on an existing file: every configured ticker ends up
     * in the table, rows already there are untouched, and the returned map
     * is the ticker-to-id map of the whole table.
     */
    method InicializarBd(config: seq<Empresa>) returns (mapa: map<string, nat>)
      requires Valid()
      modifies this
      ensures Valid()
      ensures finanzas == old(finanzas) && nextFinanzasId == old(nextFinanzasId)
      ensures |old(empresas)| <= |empresas| && empresas[..|old(empresas)|] == old(empresas)
      ensures empresas == old(empresas) + Insertadas(old(empresas), old(nextEmpresaId), config)
      ensures nextEmpresaId == old(nextEmpresaId) + |Insertadas(old(empresas), old(nextEmpresaId), config)|
      ensures mapa == IdMap()
      ensures forall k :: 0 <= k < |config| ==> config[k].ticker in mapa
      ensures forall t :: t in old(IdMap()) ==> t in mapa && mapa[t] == old(IdMap())[t]
      ensures forall t :: t in mapa <==> t in old(IdMap()) || Configured(config, t)
      ensures forall t :: HasTicker(empresas, t) <==> HasTicker(old(empresas), t) || Configured(config, t)
      ensures (forall k :: 0 <= k < |config| ==> HasTicker(old(empresas), config[k].ticker)) ==>
                empresas == old(empresas) && nextEmpresaId == old(nextEmpresaId)
    {
      ghost var e0 := empresas;
      InsertarEmpresas(config);
      mapa := IdMap();
      ghost var nuevas := Insertadas(e0, old(nextEmpresaId), config);
      PrefixOfConcat(e0, nuevas);
      MapaTrasInsertar(e0, nuevas, config);
    }

    /** `INSERT INTO finanzas`: one new row with the next id. */
    method InsertFinanzas(empresaId: nat, fecha: string, datos: Finanzas.Fields)
      requires Valid()
      modifies this
      ensures Valid()
      ensures empresas == old(empresas) && nextEmpresaId == old(nextEmpresaId)
      ensures finanzas == old(finanzas) + [FinanzasRow(old(nextFinanzasId), empresaId, fecha, datos)]
      ensures nextFinanzasId == old(nextFinanzasId) + 1
    {
      finanzas := finanzas + [FinanzasRow(nextFinanzasId, empresaId, fecha, datos)];
      nextFinanzasId := nextFinanzasId + 1;
    }
  }

  /** Running `inicializar_bd` twice yields the same ticker-to-id map. */
  method InicializarTwice(db: Database, config: seq<Empresa>) returns (m1: map<string, nat>, m2: map<string, nat>)
    requires db.Valid()
    modifies db
    ensures db.Valid()
    ensures m1 == m2
  {
    m1 := db.InicializarBd(config);
    TickerMapDomain(db.empresas);
    m2 := db.InicializarBd(config);
  }

  /** `threading.Semaphore`: the admission gate of the worker pool. */
  class Semaphore {
    var permits: nat

    constructor (n: nat)
      ensures permits == n
    {
      permits := n;
    }

    /** In the sequential model a free slot is always there when a worker starts. */
    method Acquire()
      requires permits > 0
      modifies this
      ensures permits == old(permits) - 1
    {
      permits := permits - 1;
    }

    method Release()
      modifies this
      ensures permits == old(permits) + 1
    {
      permits := permits + 1;
    }
  }

  /** What `descargar_html` followed by HTML parsing gives: a failure, or the parsed tables. */
  datatype Page = FetchFailed | Parsed(tablas: seq<Finanzas.Table>)

  /** `procesar_empresa` reaches its INSERT: the page came back and the ticker is in the map. */
  predicate Succeeds(emp: Empresa, mapa: map<string, nat>, page: Page) {
    page.Parsed? && emp.ticker in mapa
  }

  /**
   * The rows one `procesar_empresa` appends: the company's row, with id `id`,
   * when it reaches its INSERT, and none otherwise.
   */
  function NuevaFila(emp: Empresa, mapa: map<string, nat>, page: Page, fecha: string, parse: Parser,
                     id: nat): seq<FinanzasRow>
  {
    if Succeeds(emp, mapa, page)
    then [FinanzasRow(id, mapa[emp.ticker], fecha, Finanzas.Extraction(page.tablas, parse))]
    else []
  }

  /**
   * `procesar_empresa`: on success exactly one `finanzas` row for
   * `mapa[ticker]` with the extracted fields; on a failed fetch or a ticker
   * missing from the map (the `KeyError`) nothing; the slot is released either way.
   */
  method ProcesarEmpresa(db: Database, emp: Empresa, mapa: map<string, nat>, page: Page,
                         fecha: string, parse: Parser, sem: Semaphore)
    requires db.Valid() && sem.permits > 0
    modifies db, sem
    ensures db.Valid()
    ensures sem.permits == old(sem.permits)
    ensures db.empresas == old(db.empresas) && db.nextEmpresaId == old(db.nextEmpresaId)
    ensures db.finanzas == old(db.finanzas) + NuevaFila(emp, mapa, page, fecha, parse, old(db.nextFinanzasId))
    ensures db.nextFinanzasId == old(db.nextFinanzasId) + |NuevaFila(emp, mapa, page, fecha, parse, old(db.nextFinanzasId))|
  {
    sem.Acquire();
    if page.Parsed? {
      var datos := Finanzas.ExtraerFinanzas(page.tablas, parse);
      if emp.ticker in mapa {
        var empresaId := mapa[emp.ticker];
        db.InsertFinanzas(empresaId, fecha, datos);
      }
    }
    sem.Release();
  }

  /** `order` lists every company index exactly once: one possible schedule of the worker threads. */
  ghost predicate IsSchedule(order: seq<nat>, n: nat) {
    && (forall k :: 0 <= k < |order| ==> order[k] < n)
    && (forall j, k :: 0 <= j < k < |order| ==> order[j] != order[k])
    && (forall i :: 0 <= i < n ==> i in order)
  }

  /** How many of the scheduled companies have a page that was read. */
  function CountParsed(order: seq<nat>, pages: seq<Page>): (n: nat)
    ensures n <= |order|
  {
    if order == [] then 0
    else
      var i := order[|order| - 1];
      CountParsed(order[..|order| - 1], pages) + (if i < |pages| && pages[i].Parsed? then 1 else 0)
  }

  /** The scheduled companies whose page was read. */
  ghost function ParsedSet(order: seq<nat>, pages: seq<Page>): set<nat> {
    set j | 0 <= j < |order| && order[j] < |pages| && pages[order[j]].Parsed? :: order[j]
  }

  /** With no company scheduled twice, the count is the size of that set. */
  lemma {:induction false} CountParsedIsSize(order: seq<nat>, pages: seq<Page>)
    requires forall j, k :: 0 <= j < k < |order| ==> order[j] != order[k]
    ensures CountParsed(order, pages) == |ParsedSet(order, pages)|
  {
    if order != [] {
      var init := order[..|order| - 1];
      var i := order[|order| - 1];
      CountParsedIsSize(init, pages);
      var extra := if i < |pages| && pages[i].Parsed? then {i} else {};
      assert ParsedSet(order, pages) == ParsedSet(init, pages) + extra by {
        forall x | x in ParsedSet(order, pages)
          ensures x in ParsedSet(init, pages) + extra
        {
          var j :| 0 <= j < |order| && order[j] < |pages| && pages[order[j]].Parsed? && order[j] == x;
          if j < |order| - 1 {
            assert init[j] == x;
          }
        }
        forall x | x in ParsedSet(init, pages)
          ensures x in ParsedSet(order, pages)
        {
          var j :| 0 <= j < |init| && init[j] < |pages| && pages[init[j]].Parsed? && init[j] == x;
          assert order[j] == x;
        }
      }
      assert i !in ParsedSet(init, pages);
    }
  }

  /** A schedule of every company reaches exactly the companies whose page was read. */
  lemma ScheduleCount(order: seq<nat>, pages: seq<Page>)
    requires IsSchedule(order, |pages|)
    ensures CountParsed(order, pages) == |set i | 0 <= i < |pages| && pages[i].Parsed?|
  {
    CountParsedIsSize(order, pages);
    forall i | 0 <= i < |pages| && pages[i].Parsed?
      ensures i in ParsedSet(order, pages)
    {
      assert i in order;
      var j :| 0 <= j < |order| && order[j] == i;
    }
    assert ParsedSet(order, pages) == set i | 0 <= i < |pages| && pages[i].Parsed?;
  }

  /**
   * Reference definition of the `finanzas` rows a schedule appends: one row
   * per company that reaches its INSERT, in the order of the schedule, with
   * ids counting up from `nextId`.
   */
  function FilasNuevas(config: seq<Empresa>, mapa: map<string, nat>, order: seq<nat>, pages: seq<Page>,
                       fechas: seq<string>, parse: Parser, nextId: nat): (filas: seq<FinanzasRow>)
    ensures |filas| <= |order|
    ensures forall j :: 0 <= j < |filas| ==> filas[j].id == nextId + j
  {
    if order == [] then []
    else
      var i := order[|order| - 1];
      var previas := FilasNuevas(config, mapa, order[..|order| - 1], pages, fechas, parse, nextId);
      if i < |config| && i < |fechas| && i < |pages| then
        previas + NuevaFila(config[i], mapa, pages[i], fechas[i], parse, nextId + |previas|)
      else
        previas
  }

  /** One more scheduled company appends its row exactly when it reaches its INSERT. */
  lemma FilasNuevasStep(config: seq<Empresa>, mapa: map<string, nat>, order: seq<nat>, pages: seq<Page>,
                        fechas: seq<string>, parse: Parser, nextId: nat, k: nat)
    requires k < |order| && order[k] < |config| && |pages| == |config| && |fechas| == |config|
    ensures var previas := FilasNuevas(config, mapa, order[..k], pages, fechas, parse, nextId);
            var i := order[k];
            FilasNuevas(config, mapa, order[..k + 1], pages, fechas, parse, nextId) ==
              previas + NuevaFila(config[i], mapa, pages[i], fechas[i], parse, nextId + |previas|)
  {
    assert order[..k + 1][..k] == order[..k];
  }

  /** When every configured ticker is in the map, one row is appended per read page. */
  lemma {:induction false} FilasNuevasCount(config: seq<Empresa>, mapa: map<string, nat>, order: seq<nat>,
                                            pages: seq<Page>, fechas: seq<string>, parse: Parser, nextId: nat)
    requires |pages| == |config| && |fechas| == |config|
    requires forall k :: 0 <= k < |order| ==> order[k] < |config|
    requires forall j :: 0 <= j < |config| ==> config[j].ticker in mapa
    ensures |FilasNuevas(config, mapa, order, pages, fechas, parse, nextId)| == CountParsed(order, pages)
  {
    if order != [] {
      FilasNuevasCount(config, mapa, order[..|order| - 1], pages, fechas, parse, nextId);
    }
  }

  /** `filas` holds a row for company `empresaId` with date `fecha` and fields `datos`. */
  predicate HasRow(filas: seq<FinanzasRow>, empresaId: nat, fecha: string, datos: Finanzas.Fields)
  {
    exists j :: 0 <= j < |filas| && filas[j] == FinanzasRow(filas[j].id, empresaId, fecha, datos)
  }

  /** Every scheduled company that reaches its INSERT has its row among the appended ones. */
  lemma {:induction false} FilasNuevasHasRow(config: seq<Empresa>, mapa: map<string, nat>, order: seq<nat>,
                                             pages: seq<Page>, fechas: seq<string>, parse: Parser, nextId: nat, k: nat)
    requires k < |order| && order[k] < |config| && |pages| == |config| && |fechas| == |config|
    requires Succeeds(config[order[k]], mapa, pages[order[k]])
    ensures HasRow(FilasNuevas(config, mapa, order, pages, fechas, parse, nextId), mapa[config[order[k]].ticker],
                   fechas[order[k]], Finanzas.Extraction(pages[order[k]].tablas, parse))
  {
    var i := order[k];
    var filas := FilasNuevas(config, mapa, order, pages, fechas, parse, nextId);
    var previas := FilasNuevas(config, mapa, order[..|order| - 1], pages, fechas, parse, nextId);
    if k == |order| - 1 {
      assert filas[|previas|] == FinanzasRow(filas[|previas|].id, mapa[config[i].ticker], fechas[i],
                                             Finanzas.Extraction(pages[i].tablas, parse));
    } else {
      assert order[..|order| - 1][k] == i;
      FilasNuevasHasRow(config, mapa, order[..|order| - 1], pages, fechas, parse, nextId, k);
      var j :| 0 <= j < |previas| && previas[j] == FinanzasRow(previas[j].id, mapa[config[i].ticker], fechas[i],
                                                              Finanzas.Extraction(pages[i].tablas, parse));
      var last := order[|order| - 1];
      if last < |config| && last < |fechas| && last < |pages| {
        assert filas == previas + NuevaFila(config[last], mapa, pages[last], fechas[last], parse, nextId + |previas|);
      }
      assert filas[j] == previas[j];
    }
  }

  /** One turn of the schedule: company `order[k]` runs `procesar_empresa`. */
  method ProcesarSiguiente(db: Database, config: seq<Empresa>, mapa: map<string, nat>, order: seq<nat>,
                           pages: seq<Page>, fechas: seq<string>, parse: Parser, sem: Semaphore,
                           k: nat, ghost start: seq<FinanzasRow>, ghost startId: nat)
    requires db.Valid() && sem.permits > 0
    requires k < |order| && order[k] < |config| && |pages| == |config| && |fechas| == |config|
    requires db.finanzas == start + FilasNuevas(config, mapa, order[..k], pages, fechas, parse, startId)
    requires db.nextFinanzasId == startId + |FilasNuevas(config, mapa, order[..k], pages, fechas, parse, startId)|
    modifies db, sem
    ensures db.Valid() && sem.permits == old(sem.permits)
    ensures db.empresas == old(db.empresas) && db.nextEmpresaId == old(db.nextEmpresaId)
    ensures db.finanzas == start + FilasNuevas(config, mapa, order[..k + 1], pages, fechas, parse, startId)
    ensures db.nextFinanzasId == startId + |FilasNuevas(config, mapa, order[..k + 1], pages, fechas, parse, startId)|
  {
    var i := order[k];
    FilasNuevasStep(config, mapa, order, pages, fechas, parse, startId, k);
    ProcesarEmpresa(db, config[i], mapa, pages[i], fechas[i], parse, sem);
  }

  /**
   * The worker threads of `ejecutar_scraping_finanzas`, one company at a
   * time in the order of the schedule, all sharing one gate of `maxHilos` slots.
   */
  method ProcesarTodas(db: Database, config: seq<Empresa>, mapa: map<string, nat>, order: seq<nat>,
                       pages: seq<Page>, fechas: seq<string>, parse: Parser, maxHilos: nat)
    requires db.Valid() && maxHilos >= 1
    requires |pages| == |config| && |fechas| == |config|
    requires forall k :: 0 <= k < |order| ==> order[k] < |config|
    requires forall j :: 0 <= j < |config| ==> config[j].ticker in mapa
    modifies db
    ensures db.Valid()
    ensures db.empresas == old(db.empresas) && db.nextEmpresaId == old(db.nextEmpresaId)
    ensures db.finanzas == old(db.finanzas) + FilasNuevas(config, mapa, order, pages, fechas, parse, old(db.nextFinanzasId))
    ensures |db.finanzas| == |old(db.finanzas)| + CountParsed(order, pages)
  {
    var sem := new Semaphore(maxHilos);
    ghost var start := db.finanzas;
    ghost var startId := db.nextFinanzasId;
    var k := 0;
    while k < |order|
      invariant 0 <= k <= |order|
      invariant db.Valid() && sem.permits == maxHilos
      invariant db.empresas == old(db.empresas) && db.nextEmpresaId == old(db.nextEmpresaId)
      invariant db.finanzas == start + FilasNuevas(config, mapa, order[..k], pages, fechas, parse, startId)
      invariant db.nextFinanzasId == startId + |FilasNuevas(config, mapa, order[..k], pages, fechas, parse, startId)|
    {
      ProcesarSiguiente(db, config, mapa, order, pages, fechas, parse, sem, k, start, startId);
      k := k + 1;
    }
    assert order[..|order|] == order;
    FilasNuevasCount(config, mapa, order, pages, fechas, parse, startId);
  }

  /**
   * `ejecutar_scraping_finanzas` up to the joins: initialise the tables,
   * then process every company once, in the order of the schedule. Every
   * configured ticker is then in `empresas` and no other new one; the
   * `finanzas` table keeps its earlier rows and gains one row per company
   * whose page was fetched, for that company's id, with its extracted fields.
   */
  method EjecutarScrapingFinanzas(db: Database, config: seq<Empresa>, order: seq<nat>, pages: seq<Page>,
                                  fechas: seq<string>, parse: Parser, maxHilos: nat)
    requires db.Valid() && maxHilos >= 1
    requires |pages| == |config| && |fechas| == |config|
    requires IsSchedule(order, |config|)
    modifies db
    ensures db.Valid()
    ensures db.empresas == old(db.empresas) + Insertadas(old(db.empresas), old(db.nextEmpresaId), config)
    ensures forall k :: 0 <= k < |config| ==> config[k].ticker in db.IdMap()
    ensures forall t :: t in db.IdMap() <==> t in old(db.IdMap()) || Configured(config, t)
    ensures forall t :: t in old(db.IdMap()) ==> db.IdMap()[t] == old(db.IdMap())[t]
    ensures db.finanzas == old(db.finanzas) +
              FilasNuevas(config, db.IdMap(), order, pages, fechas, parse, old(db.nextFinanzasId))
    ensures |db.finanzas| == |old(db.finanzas)| + |set i | 0 <= i < |config| && pages[i].Parsed?|
  {
    var mapa := db.InicializarBd(config);
    ProcesarTodas(db, config, mapa, order, pages, fechas, parse, maxHilos);
    ScheduleCount(order, pages);
  }
}
