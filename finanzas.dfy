/**
 * The pure part of scraping_finanzas.py: number-text normalisation
 * (`convertir_num`) and the row scan of `extraer_finanzas` over tables
 * that have already been parsed into cell texts.
 */
module Finanzas {
  import opened Base
  import opened Text

  /** The values `convertir_num` answers with `None` before parsing. */
  predicate IsSentinel(texto: Option<string>): (b: bool)
    ensures b <==> texto.None? || (|texto.value| <= 2 && forall i :: 0 <= i < |texto.value| ==> texto.value[i] == '-')
  {
    assert texto.Some? && |texto.value| == 1 ==> texto.value == [texto.value[0]];
    assert texto.Some? && |texto.value| == 2 ==> texto.value == [texto.value[0], texto.value[1]];
    texto == None || texto == Some("") || texto == Some("-") || texto == Some("--")
  }

  /** `texto.replace(".", "").replace(",", ".")`: Spanish digit grouping removed, decimal comma made a point. */
  function Normalise(texto: string): (r: string)
    ensures ',' !in r
    ensures |r| == |texto| - Count(texto, '.')
  {
    Replace(Delete(texto, '.'), ',', '.')
  }

  /** The normalised text has no comma, one point per comma of the input, and no grouping points. */
  lemma NormaliseCounts(texto: string)
    ensures ',' !in Normalise(texto)
    ensures Count(Normalise(texto), '.') == Count(texto, ',')
    ensures |Normalise(texto)| == |texto| - Count(texto, '.')
  {
    DeleteKeeps(texto, '.', ',');
    ReplaceCounts(Delete(texto, '.'), ',', '.');
  }

  /** A text with neither `.` nor `,` is left as it is. */
  lemma {:induction false} NormalisePlain(texto: string)
    requires '.' !in texto && ',' !in texto
    ensures Normalise(texto) == texto
  {
    DeleteAbsent(texto, '.');
    ReplaceAbsent(texto, ',', '.');
  }

  lemma {:induction false} DeleteAbsent(s: string, c: char)
    requires c !in s
    ensures Delete(s, c) == s
  {
    if s != [] {
      DeleteAbsent(s[1..], c);
    }
  }

  lemma {:induction false} ReplaceAbsent(s: string, c: char, d: char)
    requires c !in s
    ensures Replace(s, c, d) == s
  {
  }

  /** Normalisation works character by character, so it distributes over concatenation. */
  lemma NormaliseConcat(a: string, b: string)
    ensures Normalise(a + b) == Normalise(a) + Normalise(b)
  {
    DeleteConcat(a, b, '.');
    ReplaceConcat(Delete(a, '.'), Delete(b, '.'), ',', '.');
  }

  /**
   * A Spanish amount with one thousands point and a decimal comma, such as
   * "1.234,5", becomes the Python literal "1234.5".
   */
  lemma NormaliseGrouped(miles: string, unidades: string, decimales: string)
    requires '.' !in miles && ',' !in miles
    requires '.' !in unidades && ',' !in unidades
    requires '.' !in decimales && ',' !in decimales
    ensures Normalise(miles + "." + unidades + "," + decimales) == miles + unidades + "." + decimales
  {
    NormalisePlain(miles);
    NormalisePlain(unidades);
    NormalisePlain(decimales);
    NormaliseSeparators();
    NormaliseParts(miles, ".", unidades, ",", decimales);
    assert miles + "" == miles;
  }

  lemma NormaliseSeparators()
    ensures Normalise(".") == "" && Normalise(",") == "."
  {
    assert Delete(".", '.') == [];
  }

  lemma NormaliseParts(a: string, b: string, c: string, d: string, e: string)
    ensures Normalise(a + b + c + d + e) == Normalise(a) + Normalise(b) + Normalise(c) + Normalise(d) + Normalise(e)
  {
    NormaliseConcat(a, b);
    NormaliseConcat(a + b, c);
    NormaliseConcat(a + b + c, d);
    NormaliseConcat(a + b + c + d, e);
  }

  /**
   * `convertir_num`: `None` for the sentinels, otherwise whatever the parser
   * makes of the normalised text; a rejected text gives `None`, never an exception.
   */
  function ConvertirNum(texto: Option<string>, parse: Parser): (r: Option<real>)
    ensures IsSentinel(texto) ==> r == None
    ensures r.Some? ==> texto.Some? && parse(Normalise(texto.value)) == r
    ensures !IsSentinel(texto) && parse(Normalise(texto.value)).None? ==> r == None
    ensures !IsSentinel(texto) && parse(Normalise(texto.value)).Some? ==> r == parse(Normalise(texto.value))
  {
    if IsSentinel(texto) then None else parse(Normalise(texto.value))
  }

  /** The five local variables of `extraer_finanzas`. */
  datatype Slot = Per | Bpa | Ebitda | Beneficio | Deuda

  /** The substring of the label that selects each slot. */
  function Keyword(s: Slot): string {
    match s
    case Per => "per"
    case Bpa => "bpa"
    case Ebitda => "ebitda"
    case Beneficio => "benef"
    case Deuda => "deuda"
  }

  /** The position of each slot's test in the `if`/`elif` chain. */
  function Priority(s: Slot): nat {
    match s
    case Per => 0
    case Bpa => 1
    case Ebitda => 2
    case Beneficio => 3
    case Deuda => 4
  }

  /**
   * The slot a label selects: the first slot, in priority order, whose
   * keyword the label contains; none when it contains no keyword.
   */
  function SlotOf(clave: string): (s: Option<Slot>)
    ensures s.Some? ==> Contains(clave, Keyword(s.value))
    ensures s.Some? ==> forall t :: Priority(t) < Priority(s.value) ==> !Contains(clave, Keyword(t))
    ensures s.None? ==> forall t :: !Contains(clave, Keyword(t))
  {
    if Contains(clave, "per") then Some(Per)
    else if Contains(clave, "bpa") then Some(Bpa)
    else if Contains(clave, "ebitda") then Some(Ebitda)
    else if Contains(clave, "benef") then Some(Beneficio)
    else if Contains(clave, "deuda") then Some(Deuda)
    else None
  }

  /**
   * One `tr`: the stripped texts of its `td`/`th` cells in document order,
   * the first of them (the label) already lower-cased.
   */
  type Row = seq<string>
  type Table = seq<Row>

  /** The slot a row assigns: none for a row with fewer than two cells. */
  function Writes(fila: Row): (s: Option<Slot>)
    ensures s.Some? ==> |fila| >= 2
  {
    if |fila| < 2 then None else SlotOf(fila[0])
  }

  /**
   * A row of two or more cells assigns the slot of the highest-priority
   * keyword its label contains, and nothing when the label contains none.
   */
  lemma WritesFirstKeyword(fila: Row)
    ensures Writes(fila).Some? ==> Contains(fila[0], Keyword(Writes(fila).value))
    ensures Writes(fila).Some? ==>
              forall t :: Priority(t) < Priority(Writes(fila).value) ==> !Contains(fila[0], Keyword(t))
    ensures |fila| >= 2 && Writes(fila).None? ==> forall t :: !Contains(fila[0], Keyword(t))
  {
  }

  /** The rows of all tables, in the order the nested loops visit them. */
  function Flatten(tablas: seq<Table>): seq<Row> {
    if tablas == [] then [] else Flatten(tablas[..|tablas| - 1]) + tablas[|tablas| - 1]
  }

  /**
   * Reference definition of a slot's final value: the converted second cell
   * of the LAST row that assigns this slot, or `None` when no row does.
   */
  function LastWrite(filas: seq<Row>, s: Slot, parse: Parser): Option<real> {
    if filas == [] then None
    else
      var ultima := filas[|filas| - 1];
      if Writes(ultima) == Some(s) then ConvertirNum(Some(ultima[1]), parse)
      else LastWrite(filas[..|filas| - 1], s, parse)
  }

  /** The dictionary `extraer_finanzas` returns: always these five keys, `None` meaning not found. */
  datatype Fields = Fields(per: Option<real>, bpa: Option<real>, ebitda: Option<real>,
                           beneficio: Option<real>, deuda: Option<real>)

  function Get(f: Fields, s: Slot): Option<real> {
    match s
    case Per => f.per
    case Bpa => f.bpa
    case Ebitda => f.ebitda
    case Beneficio => f.beneficio
    case Deuda => f.deuda
  }

  /** What `extraer_finanzas` promises: each key holds the last write to it. */
  function Extraction(tablas: seq<Table>, parse: Parser): (f: Fields)
    ensures forall s :: Get(f, s) == LastWrite(Flatten(tablas), s, parse)
  {
    var filas := Flatten(tablas);
    Fields(LastWrite(filas, Per, parse), LastWrite(filas, Bpa, parse), LastWrite(filas, Ebitda, parse),
           LastWrite(filas, Beneficio, parse), LastWrite(filas, Deuda, parse))
  }

  /** Appending a row changes at most the one slot it assigns. */
  lemma LastWriteSnoc(filas: seq<Row>, fila: Row, s: Slot, parse: Parser)
    ensures LastWrite(filas + [fila], s, parse) ==
            if Writes(fila) == Some(s) then ConvertirNum(Some(fila[1]), parse) else LastWrite(filas, s, parse)
  {
    assert (filas + [fila])[..|filas|] == filas;
  }

  /** The last row that assigns a slot decides its value, whatever the earlier rows say. */
  lemma {:induction false} LastWriteIsLastRow(filas: seq<Row>, s: Slot, j: nat, parse: Parser)
    requires j < |filas| && Writes(filas[j]) == Some(s)
    requires forall k :: j < k < |filas| ==> Writes(filas[k]) != Some(s)
    ensures LastWrite(filas, s, parse) == ConvertirNum(Some(filas[j][1]), parse)
  {
    if j < |filas| - 1 {
      LastWriteIsLastRow(filas[..|filas| - 1], s, j, parse);
    }
  }

  /** A slot no row assigns stays `None`. */
  lemma {:induction false} LastWriteUnassigned(filas: seq<Row>, s: Slot, parse: Parser)
    requires forall k :: 0 <= k < |filas| ==> Writes(filas[k]) != Some(s)
    ensures LastWrite(filas, s, parse) == None
  {
    if filas != [] {
      LastWriteUnassigned(filas[..|filas| - 1], s, parse);
    }
  }

  /**
   * One pass of the inner loop body of `extraer_finanzas`: a row with two
   * or more cells assigns the slot its label selects, the others are skipped.
   */
  method AsignarFila(f: Fields, fila: Row, parse: Parser) returns (g: Fields)
    ensures forall s :: Get(g, s) == if Writes(fila) == Some(s) then ConvertirNum(Some(fila[1]), parse) else Get(f, s)
  {
    g := f;
    if |fila| < 2 {
      return;
    }
    var clave := fila[0];
    var valor := ConvertirNum(Some(fila[1]), parse);
    if Contains(clave, "per") {
      g := g.(per := valor);
    } else if Contains(clave, "bpa") {
      g := g.(bpa := valor);
    } else if Contains(clave, "ebitda") {
      g := g.(ebitda := valor);
    } else if Contains(clave, "benef") {
      g := g.(beneficio := valor);
    } else if Contains(clave, "deuda") {
      g := g.(deuda := valor);
    }
  }

  /**
   * `extraer_finanzas` after parsing: the nested loop over tables and rows,
   * where a later assignment to a slot overwrites an earlier one.
   */
  method ExtraerFinanzas(tablas: seq<Table>, parse: Parser) returns (f: Fields)
    ensures f == Extraction(tablas, parse)
  {
    f := Fields(None, None, None, None, None);
    var t := 0;
    while t < |tablas|
      invariant 0 <= t <= |tablas|
      invariant forall s :: Get(f, s) == LastWrite(Flatten(tablas[..t]), s, parse)
    {
      var tabla := tablas[t];
      ghost var antes := Flatten(tablas[..t]);
      var i := 0;
      assert antes + tabla[..0] == antes;
      while i < |tabla|
        invariant 0 <= i <= |tabla|
        invariant forall s :: Get(f, s) == LastWrite(antes + tabla[..i], s, parse)
      {
        f := AsignarFila(f, tabla[i], parse);
        assert antes + tabla[..i + 1] == (antes + tabla[..i]) + [tabla[i]];
        forall s {
          LastWriteSnoc(antes + tabla[..i], tabla[i], s, parse);
        }
        i := i + 1;
      }
      assert tabla[..|tabla|] == tabla;
      assert tablas[..t + 1][..t] == tablas[..t];
      t := t + 1;
    }
    assert tablas[..|tablas|] == tablas;
    FieldsExtensional(f, Extraction(tablas, parse));
  }

  /** Two field sets that agree on every slot are equal. */
  lemma FieldsExtensional(f: Fields, g: Fields)
    requires forall s :: Get(f, s) == Get(g, s)
    ensures f == g
  {
    assert Get(f, Per) == Get(g, Per) && Get(f, Bpa) == Get(g, Bpa) && Get(f, Ebitda) == Get(g, Ebitda);
    assert Get(f, Beneficio) == Get(g, Beneficio) && Get(f, Deuda) == Get(g, Deuda);
  }
}
