/**
 * scraping_cotizacion.py after HTML parsing: `clean_num`, the search for
 * the quotes table, the row filter and projection of the loop over its
 * body, and the cleaning of the four numeric columns.
 */
module Cotizacion {
  import opened Base
  import opened Text
  import Finanzas

  const Host := "https://cincodias.elpais.com"
  const Caption := "Principales valores"

  /** `texto.replace(".", "").replace(",", ".").replace("%", "")`. */
  function NormaliseQuote(texto: string): (r: string)
    ensures ',' !in r && '%' !in r
  {
    var n := Finanzas.Normalise(texto);
    DeleteKeeps(n, '%', ',');
    Delete(n, '%')
  }

  /** The normalised text has neither a comma nor a percent sign, and one point per comma of the input. */
  lemma NormaliseQuoteCounts(texto: string)
    ensures ',' !in NormaliseQuote(texto) && '%' !in NormaliseQuote(texto)
    ensures Count(NormaliseQuote(texto), '.') == Count(texto, ',')
  {
    Finanzas.NormaliseCounts(texto);
    DeleteKeeps(Finanzas.Normalise(texto), '%', ',');
    DeleteKeeps(Finanzas.Normalise(texto), '%', '.');
  }

  /** A Spanish percentage such as "2,5%" becomes "2.5". */
  lemma NormaliseQuotePercent(entero: string, decimales: string)
    requires '.' !in entero && ',' !in entero && '%' !in entero
    requires '.' !in decimales && ',' !in decimales && '%' !in decimales
    ensures NormaliseQuote(entero + "," + decimales + "%") == entero + "." + decimales
  {
    Finanzas.NormalisePlain(entero);
    Finanzas.NormalisePlain(decimales);
    Finanzas.DeleteAbsent(entero, '%');
    Finanzas.DeleteAbsent(decimales, '%');
    QuoteSeparators();
    NormaliseQuoteParts(entero, ",", decimales, "%");
  }

  lemma QuoteSeparators()
    ensures NormaliseQuote(",") == "." && NormaliseQuote("%") == ""
  {
    Finanzas.NormaliseSeparators();
    Finanzas.NormalisePlain("%");
    assert Delete(".", '%') == ".";
  }

  /** Quote normalisation distributes over concatenation. */
  lemma NormaliseQuoteParts(a: string, b: string, c: string, d: string)
    ensures NormaliseQuote(a + b + c + d) ==
            NormaliseQuote(a) + NormaliseQuote(b) + NormaliseQuote(c) + NormaliseQuote(d)
  {
    Finanzas.NormaliseConcat(a, b);
    Finanzas.NormaliseConcat(a + b, c);
    Finanzas.NormaliseConcat(a + b + c, d);
    var na, nb, nc, nd := Finanzas.Normalise(a), Finanzas.Normalise(b), Finanzas.Normalise(c), Finanzas.Normalise(d);
    DeleteConcat(na, nb, '%');
    DeleteConcat(na + nb, nc, '%');
    DeleteConcat(na + nb + nc, nd, '%');
  }

  /**
   * `clean_num`: `None` for "", "--", "-" and `None`, otherwise what the
   * parser makes of the normalised text; a rejected text gives `None`.
   */
  function CleanNum(texto: Option<string>, parse: Parser): (r: Option<real>)
    ensures Finanzas.IsSentinel(texto) ==> r == None
    ensures r.Some? ==> texto.Some? && parse(NormaliseQuote(texto.value)) == r
    ensures !Finanzas.IsSentinel(texto) && parse(NormaliseQuote(texto.value)).None? ==> r == None
    ensures !Finanzas.IsSentinel(texto) && parse(NormaliseQuote(texto.value)).Some? ==>
              r == parse(NormaliseQuote(texto.value))
  {
    if Finanzas.IsSentinel(texto) then None else parse(NormaliseQuote(texto.value))
  }

  /** On text without '%' the quote cleaner and the financial converter agree. */
  lemma CleanNumAgrees(texto: Option<string>, parse: Parser)
    requires texto.Some? ==> '%' !in texto.value
    ensures CleanNum(texto, parse) == Finanzas.ConvertirNum(texto, parse)
  {
    if !Finanzas.IsSentinel(texto) {
      var t := texto.value;
      DeleteKeeps(t, '.', '%');
      ReplaceKeeps(Delete(t, '.'), ',', '.', '%');
      Finanzas.DeleteAbsent(Finanzas.Normalise(t), '%');
    }
  }

  /** The `a` inside a row's `th`: its stripped text and its `href` attribute, if any. */
  datatype Anchor = Anchor(text: string, href: Option<string>)
  /** A `th` and the first `a` inside it, if any. */
  datatype Th = Th(anchor: Option<Anchor>)
  /** A `tr` of the body: its first `th`, if any, and the stripped texts of its `td`s. */
  datatype BodyRow = BodyRow(th: Option<Th>, tds: seq<string>)
  /** A `table`: its text joined with spaces, and the `tr`s of its first `tbody`, if it has one. */
  datatype HtmlTable = HtmlTable(text: string, tbody: Option<seq<BodyRow>>)

  /** Reference definition: the index of the first table whose text contains the caption. */
  function FirstCaption(tablas: seq<HtmlTable>): (k: Option<nat>)
    ensures k.Some? ==> k.value < |tablas| && Contains(tablas[k.value].text, Caption)
    ensures k.Some? ==> forall j :: 0 <= j < k.value ==> !Contains(tablas[j].text, Caption)
    ensures k.None? ==> forall j :: 0 <= j < |tablas| ==> !Contains(tablas[j].text, Caption)
  {
    if tablas == [] then None
    else if Contains(tablas[0].text, Caption) then Some(0)
    else match FirstCaption(tablas[1..])
         case None => None
         case Some(j) => Some(j + 1)
  }

  /** The table search: the loop over `soup.find_all("table")` with its `break`. */
  method BuscarTabla(tablas: seq<HtmlTable>) returns (k: Option<nat>)
    ensures k == FirstCaption(tablas)
  {
    k := None;
    var i := 0;
    while i < |tablas|
      invariant 0 <= i <= |tablas|
      invariant forall j :: 0 <= j < i ==> !Contains(tablas[j].text, Caption)
    {
      if Contains(tablas[i].text, Caption) {
        k := Some(i);
        break;
      }
      i := i + 1;
    }
    FirstCaptionUnique(tablas, k);
  }

  /** The three properties of `FirstCaption` determine it. */
  lemma FirstCaptionUnique(tablas: seq<HtmlTable>, k: Option<nat>)
    requires k.Some? ==> k.value < |tablas| && Contains(tablas[k.value].text, Caption)
    requires k.Some? ==> forall j :: 0 <= j < k.value ==> !Contains(tablas[j].text, Caption)
    requires k.None? ==> forall j :: 0 <= j < |tablas| ==> !Contains(tablas[j].text, Caption)
    ensures k == FirstCaption(tablas)
  {
  }

  /** One element of `filas`. */
  datatype Fila = Fila(link: string, name: string, value: string, variacion: string,
                       datetime: string, max: string, min: string)

  /** A body row is kept when it has a `th` with an anchor and at least five `td`s. */
  predicate Keep(tr: BodyRow) {
    tr.th.Some? && tr.th.value.anchor.Some? && |tr.tds| >= 5
  }

  /** The dictionary appended for a kept row (`td` number 2 is not read). */
  function Project(tr: BodyRow, fecha: string): Fila
    requires Keep(tr)
  {
    var a := tr.th.value.anchor.value;
    Fila(Host + Strip(a.href.GetOr("")), a.text, tr.tds[0], tr.tds[1], fecha, tr.tds[3], tr.tds[4])
  }

  /** The three `continue` guards: a row without `th`, without an anchor, or with fewer than five `td`s is skipped. */
  lemma KeepGuards(tr: BodyRow)
    ensures tr.th.None? ==> !Keep(tr)
    ensures tr.th.Some? && tr.th.value.anchor.None? ==> !Keep(tr)
    ensures |tr.tds| < 5 ==> !Keep(tr)
    ensures tr.th.Some? && tr.th.value.anchor.Some? && |tr.tds| >= 5 ==> Keep(tr)
  {
  }

  /**
   * The dictionary of a kept row: the link is the host followed by the
   * stripped `href`, the name is the anchor text, and value, variation,
   * maximum and minimum are `td`s 0, 1, 3 and 4.
   */
  lemma ProjectFields(tr: BodyRow, fecha: string)
    requires Keep(tr)
    ensures var f, a := Project(tr, fecha), tr.th.value.anchor.value;
            && |Host| <= |f.link| && f.link[..|Host|] == Host && f.link[|Host|..] == Strip(a.href.GetOr(""))
            && f.name == a.text && f.datetime == fecha
            && f.value == tr.tds[0] && f.variacion == tr.tds[1] && f.max == tr.tds[3] && f.min == tr.tds[4]
  {
    var a := tr.th.value.anchor.value;
    assert (Host + Strip(a.href.GetOr("")))[|Host|..] == Strip(a.href.GetOr(""));
  }

  /** Reference definition of `filas`: the projections of the kept rows, in body order. */
  function KeptRows(cuerpo: seq<BodyRow>, fecha: string): (filas: seq<Fila>)
    ensures |filas| <= |cuerpo|
    ensures forall j :: 0 <= j < |filas| ==> filas[j].datetime == fecha
  {
    if cuerpo == [] then []
    else
      var tr := cuerpo[|cuerpo| - 1];
      var previas := KeptRows(cuerpo[..|cuerpo| - 1], fecha);
      if Keep(tr) then
        var fila := Project(tr, fecha);
        assert fila.datetime == fecha;
        previas + [fila]
      else
        previas
  }

  /** The positions of the kept rows of a body. */
  function KeptIndices(cuerpo: seq<BodyRow>): (idx: seq<nat>)
    ensures forall j :: 0 <= j < |idx| ==> idx[j] < |cuerpo| && Keep(cuerpo[idx[j]])
    ensures forall j, l :: 0 <= j < l < |idx| ==> idx[j] < idx[l]
    ensures forall i :: 0 <= i < |cuerpo| && Keep(cuerpo[i]) ==> i in idx
  {
    if cuerpo == [] then []
    else
      var n := |cuerpo| - 1;
      var prev := KeptIndices(cuerpo[..n]);
      assert forall j :: 0 <= j < |prev| ==> cuerpo[..n][prev[j]] == cuerpo[prev[j]];
      prev + (if Keep(cuerpo[n]) then [n] else [])
  }

  /**
   * The kept rows are exactly the projections of the rows that pass the
   * filter, in their input order: the j-th output row comes from the j-th
   * kept body row.
   */
  lemma {:induction false} KeptRowsInOrder(cuerpo: seq<BodyRow>, fecha: string)
    ensures |KeptRows(cuerpo, fecha)| == |KeptIndices(cuerpo)|
    ensures forall j :: 0 <= j < |KeptIndices(cuerpo)| ==>
              KeptRows(cuerpo, fecha)[j] == Project(cuerpo[KeptIndices(cuerpo)[j]], fecha)
  {
    if cuerpo != [] {
      var n := |cuerpo| - 1;
      KeptRowsInOrder(cuerpo[..n], fecha);
      var prev := KeptIndices(cuerpo[..n]);
      forall j | 0 <= j < |prev|
        ensures cuerpo[..n][prev[j]] == cuerpo[prev[j]]
      {
      }
    }
  }

  /** The third `td` never reaches the output. */
  lemma ThirdCellIgnored(tr: BodyRow, otro: string, fecha: string)
    requires Keep(tr)
    ensures Keep(tr.(tds := tr.tds[2 := otro]))
    ensures Project(tr.(tds := tr.tds[2 := otro]), fecha) == Project(tr, fecha)
  {
  }

  /** The loop over the body rows that builds `filas`. */
  method ExtraerFilas(cuerpo: seq<BodyRow>, fecha: string) returns (filas: seq<Fila>)
    ensures filas == KeptRows(cuerpo, fecha)
  {
    filas := [];
    var i := 0;
    while i < |cuerpo|
      invariant 0 <= i <= |cuerpo|
      invariant filas == KeptRows(cuerpo[..i], fecha)
    {
      var tr := cuerpo[i];
      if tr.th.Some? {
        var th := tr.th.value;
        if th.anchor.Some? {
          var a := th.anchor.value;
          var name := a.text;
          var link := Host + Strip(a.href.GetOr(""));
          var tds := tr.tds;
          if |tds| >= 5 {
            filas := filas + [Fila(link, name, tds[0], tds[1], fecha, tds[3], tds[4])];
          }
        }
      }
      assert cuerpo[..i + 1][..i] == cuerpo[..i];
      i := i + 1;
    }
    assert cuerpo[..|cuerpo|] == cuerpo;
  }

  /** A row of `df_clean`. */
  datatype FilaLimpia = FilaLimpia(link: string, name: string, value: Option<real>, variacion: Option<real>,
                                   datetime: string, max: Option<real>, min: Option<real>)

  /**
   * The four `apply(clean_num)` calls: same number of rows; value, var, max
   * and min cleaned; link, name and datetime carried over.
   */
  function LimpiarFilas(filas: seq<Fila>, parse: Parser): (limpias: seq<FilaLimpia>)
    ensures |limpias| == |filas|
    ensures forall j :: 0 <= j < |filas| ==>
              && limpias[j].link == filas[j].link
              && limpias[j].name == filas[j].name
              && limpias[j].datetime == filas[j].datetime
              && limpias[j].value == CleanNum(Some(filas[j].value), parse)
              && limpias[j].variacion == CleanNum(Some(filas[j].variacion), parse)
              && limpias[j].max == CleanNum(Some(filas[j].max), parse)
              && limpias[j].min == CleanNum(Some(filas[j].min), parse)
  {
    if filas == [] then []
    else
      var f := filas[0];
      [FilaLimpia(f.link, f.name, CleanNum(Some(f.value), parse), CleanNum(Some(f.variacion), parse),
                  f.datetime, CleanNum(Some(f.max), parse), CleanNum(Some(f.min), parse))]
      + LimpiarFilas(filas[1..], parse)
  }

  /** What `requests.get` followed by HTML parsing gives: a failure, or the parsed tables. */
  datatype Download = FetchFailed | Html(tablas: seq<HtmlTable>)

  /**
   * What one run leaves behind: the raw rows written to the RAW CSV, the
   * cleaned rows written to the PROCESSED CSV, and the exception that was
   * caught and logged, if any.
   */
  datatype Ejecucion = Ejecucion(raw: Option<seq<Fila>>, limpias: Option<seq<FilaLimpia>>, error: Option<PyError>)

  /**
   * `ejecutar_scraping_cotizacion` after the download: no file when the
   * fetch fails, when no table has the caption (the `RuntimeError`) or when
   * that table has no `tbody` (the `AttributeError` of `None.find_all`); an
   * empty `filas` still writes the RAW file, but `pd.DataFrame([])` has no
   * "value" column, so the cleaning raises `KeyError` and no PROCESSED file
   * is written.
   */
  method EjecutarScrapingCotizacion(descarga: Download, fecha: string, parse: Parser) returns (e: Ejecucion)
    ensures descarga.FetchFailed? ==> e == Ejecucion(None, None, Some(RequestError))
    ensures descarga.Html? && FirstCaption(descarga.tablas).None? ==>
              e == Ejecucion(None, None, Some(RuntimeError("Tabla no localizada")))
    ensures descarga.Html? && FirstCaption(descarga.tablas).Some? ==>
              var tabla := descarga.tablas[FirstCaption(descarga.tablas).value];
              && (tabla.tbody.None? ==> e == Ejecucion(None, None, Some(AttributeError)))
              && (tabla.tbody.Some? ==>
                    var filas := KeptRows(tabla.tbody.value, fecha);
                    e == if filas == [] then Ejecucion(Some([]), None, Some(KeyError("value")))
                         else Ejecucion(Some(filas), Some(LimpiarFilas(filas, parse)), None))
  {
    if descarga.FetchFailed? {
      return Ejecucion(None, None, Some(RequestError));
    }
    var k := BuscarTabla(descarga.tablas);
    if k.None? {
      return Ejecucion(None, None, Some(RuntimeError("Tabla no localizada")));
    }
    var tabla := descarga.tablas[k.value];
    if tabla.tbody.None? {
      return Ejecucion(None, None, Some(AttributeError));
    }
    var filas := ExtraerFilas(tabla.tbody.value, fecha);
    if filas == [] {
      return Ejecucion(Some([]), None, Some(KeyError("value")));
    }
    e := Ejecucion(Some(filas), Some(LimpiarFilas(filas, parse)), None);
  }
}
