/**
 * analisis.py: the per-row rules (`safe_ratio`, `per_sig`, `bpa_sig`,
 * `recomendar`), the column each analysis stage computes over the joined
 * frame, and the final concatenation of the stage results.
 */
module Analisis {
  import opened Base

  /** A cell of a ratio column: `None` (or `NaN`) is `Absent`. */
  datatype Ratio = Absent | Quotient(q: real)

  /**
   * `safe_ratio(a, b)`: absent when `a` is missing, `b` is missing or `b == 0`;
   * the quotient when both are numbers; and `TypeError` when text reaches the division.
   */
  function SafeRatio(a: Cell, b: Cell): (r: Result<Ratio, PyError>)
    ensures r == Ok(Absent) <==> a.Missing? || b.Missing? || b == Num(0.0)
    ensures (r.Ok? && r.value.Quotient?) <==> a.Num? && b.Num? && b.x != 0.0
    ensures r.Ok? && r.value.Quotient? ==> r.value.q == a.x / b.x
    ensures r.Err? <==> !(a.Missing? || b.Missing? || b == Num(0.0)) && (a.NonNumeric? || b.NonNumeric?)
    ensures r.Err? ==> r.error == TypeError
  {
    if a.Missing? then Ok(Absent)
    else if b.Missing? || b == Num(0.0) then Ok(Absent)
    else if a.Num? && b.Num? then Ok(Quotient(a.x / b.x))
    else Err(TypeError)
  }

  /** On numeric or missing operands `safe_ratio` never raises. */
  lemma SafeRatioTotal(a: Cell, b: Cell)
    requires !a.NonNumeric? && !b.NonNumeric?
    ensures SafeRatio(a, b).Ok?
  {
  }

  /**
   * A row of the frame `df` the stages are given: the `finanzas` columns
   * left-joined with the quotes' value, var, max and min.
   */
  datatype JoinedRow = JoinedRow(nombre: string, ticker: string, per: Cell, bpa: Cell, ebitda: Cell,
                                 beneficio: Cell, deuda: Cell, fechaRegistro: string,
                                 value: Cell, variacion: Cell, max: Cell, min: Cell)

  /** The two columns of `resultados["ratios"]`. */
  datatype RatioRow = RatioRow(deudaEbitda: Ratio, ebitdaBeneficio: Ratio)

  /**
   * `calcular_ratios`: one `deuda_ebitda` and one `ebitda_beneficio` per row,
   * in row order; if any row raises, the stage raises and publishes nothing.
   */
  function CalcularRatios(df: seq<JoinedRow>): (r: Result<seq<RatioRow>, PyError>)
    ensures r.Ok? <==> forall i :: 0 <= i < |df| ==>
                         SafeRatio(df[i].deuda, df[i].ebitda).Ok? && SafeRatio(df[i].ebitda, df[i].beneficio).Ok?
    ensures r.Ok? ==> |r.value| == |df|
    ensures r.Ok? ==> forall i :: 0 <= i < |df| ==>
                        r.value[i] == RatioRow(SafeRatio(df[i].deuda, df[i].ebitda).value,
                                               SafeRatio(df[i].ebitda, df[i].beneficio).value)
    ensures r.Err? ==> r.error == TypeError
  {
    if df == [] then Ok([])
    else
      var de := SafeRatio(df[0].deuda, df[0].ebitda);
      var eb := SafeRatio(df[0].ebitda, df[0].beneficio);
      if de.Err? || eb.Err? then Err(TypeError)
      else
        match CalcularRatios(df[1..])
        case Err(e) => Err(e)
        case Ok(rest) => Ok([RatioRow(de.value, eb.value)] + rest)
  }

  /** The labels the rules produce and compare (`Debil` is "Débil", `Desconocido` the unknown label). */
  datatype Signal = Barata | Media | Cara | Debil | Alta | Desconocido

  /** `per_sig`: unknown unless numeric; below 12 cheap, below 20 medium, otherwise expensive. */
  function PerSig(c: Cell): (s: Signal)
    ensures s == Desconocido <==> !c.Num?
    ensures s == Barata <==> c.Num? && c.x < 12.0
    ensures s == Media <==> c.Num? && 12.0 <= c.x < 20.0
    ensures s == Cara <==> c.Num? && 20.0 <= c.x
  {
    match c
    case Num(x) => if x < 12.0 then Barata else if x < 20.0 then Media else Cara
    case _ => Desconocido
  }

  /** `bpa_sig`: unknown unless numeric; below 0.5 weak (negatives too), below 1.5 medium, otherwise high. */
  function BpaSig(c: Cell): (s: Signal)
    ensures s == Desconocido <==> !c.Num?
    ensures s == Debil <==> c.Num? && c.x < 0.5
    ensures s == Media <==> c.Num? && 0.5 <= c.x < 1.5
    ensures s == Alta <==> c.Num? && 1.5 <= c.x
  {
    match c
    case Num(x) => if x < 0.5 then Debil else if x < 1.5 then Media else Alta
    case _ => Desconocido
  }

  /** The order of the PER labels, cheapest first. */
  function PerRank(s: Signal): nat {
    match s
    case Barata => 0
    case Media => 1
    case _ => 2
  }

  /** The order of the BPA labels, weakest first. */
  function BpaRank(s: Signal): nat {
    match s
    case Debil => 0
    case Media => 1
    case _ => 2
  }

  /** A higher PER never gets a cheaper label. */
  lemma PerSigMonotone(x: real, y: real)
    requires x <= y
    ensures PerRank(PerSig(Num(x))) <= PerRank(PerSig(Num(y)))
  {
  }

  /** A higher BPA never gets a weaker label. */
  lemma BpaSigMonotone(x: real, y: real)
    requires x <= y
    ensures BpaRank(BpaSig(Num(x))) <= BpaRank(BpaSig(Num(y)))
  {
  }

  /** Boundary cases of the PER and BPA thresholds: 12 is medium, 20 is expensive. */
  lemma SignalBoundaries()
    ensures PerSig(Num(11.9)) == Barata && PerSig(Num(12.0)) == Media
    ensures PerSig(Num(19.99)) == Media && PerSig(Num(20.0)) == Cara && PerSig(Missing) == Desconocido
    ensures BpaSig(Num(-1.0)) == Debil && BpaSig(Num(0.5)) == Media && BpaSig(Num(1.5)) == Alta
  {
  }

  /** The two columns of `resultados["senales"]`. */
  datatype SignalRow = SignalRow(perSenal: Signal, bpaSenal: Signal)

  /** `calcular_senales`: one pair of labels per row, in row order. */
  function CalcularSenales(df: seq<JoinedRow>): (r: seq<SignalRow>)
    ensures |r| == |df|
    ensures forall i :: 0 <= i < |df| ==> r[i] == SignalRow(PerSig(df[i].per), BpaSig(df[i].bpa))
  {
    if df == [] then [] else [SignalRow(PerSig(df[0].per), BpaSig(df[0].bpa))] + CalcularSenales(df[1..])
  }

  datatype Decision = Comprar | Vender | Mantener

  /** The buy rule: cheap or medium PER, medium or high BPA, debt ratio absent or at most 6. */
  predicate BuyRule(per: Signal, bpa: Signal, deudaEbitda: Ratio) {
    (per == Barata || per == Media) && (bpa == Media || bpa == Alta) && (deudaEbitda.Absent? || deudaEbitda.q <= 6.0)
  }

  /** The sell rule: expensive PER, weak BPA, debt ratio absent or at least 4. */
  predicate SellRule(per: Signal, bpa: Signal, deudaEbitda: Ratio) {
    per == Cara && bpa == Debil && (deudaEbitda.Absent? || deudaEbitda.q >= 4.0)
  }

  /** No input satisfies both rules, so testing the buy rule first decides nothing. */
  lemma RulesDisjoint(per: Signal, bpa: Signal, deudaEbitda: Ratio)
    ensures !(BuyRule(per, bpa, deudaEbitda) && SellRule(per, bpa, deudaEbitda))
  {
  }

  /** The body of `recomendar` once its three inputs are read: buy, sell, or hold otherwise. */
  function Decidir(per: Signal, bpa: Signal, deudaEbitda: Ratio): (d: Decision)
    ensures d == Comprar <==> BuyRule(per, bpa, deudaEbitda)
    ensures d == Vender <==> SellRule(per, bpa, deudaEbitda)
    ensures d == Mantener <==> !BuyRule(per, bpa, deudaEbitda) && !SellRule(per, bpa, deudaEbitda)
  {
    var deudaOk := deudaEbitda.Quotient?;
    if (per == Barata || per == Media) && (bpa == Media || bpa == Alta) && (!deudaOk || deudaEbitda.q <= 6.0) then
      Comprar
    else if per == Cara && bpa == Debil && deudaOk && deudaEbitda.q >= 4.0 then
      Vender
    else if per == Cara && bpa == Debil && !deudaOk then
      Vender
    else
      Mantener
  }

  /** Concrete cases of the buy/sell/hold rule. */
  lemma DecisionExamples()
    ensures Decidir(Barata, Alta, Quotient(5.0)) == Comprar
    ensures Decidir(Barata, Alta, Quotient(7.0)) == Mantener
    ensures Decidir(Cara, Debil, Absent) == Vender
    ensures forall de :: Decidir(Media, Debil, de) == Mantener
  {
  }

  /**
   * A row as `recomendar` sees it: a row of the frame the stage was given,
   * with the stage columns that frame holds (`None` when it has none).
   */
  datatype StageRow = StageRow(base: JoinedRow, ratios: Option<RatioRow>, senales: Option<SignalRow>)

  /**
   * `recomendar(r)`: `r.get` falls back to "Desconocido", "Desconocido" and
   * `None` for columns the row does not have.
   */
  function Recomendar(r: StageRow): (d: Decision)
    ensures r.ratios.None? && r.senales.None? ==> d == Mantener
    ensures r.ratios.Some? && r.senales.Some? ==>
              d == Decidir(r.senales.value.perSenal, r.senales.value.bpaSenal, r.ratios.value.deudaEbitda)
  {
    var per := if r.senales.Some? then r.senales.value.perSenal else Desconocido;
    var bpa := if r.senales.Some? then r.senales.value.bpaSenal else Desconocido;
    var deudaEbitda := if r.ratios.Some? then r.ratios.value.deudaEbitda else Absent;
    Decidir(per, bpa, deudaEbitda)
  }

  /** `calcular_recomendacion`: one decision per row, in row order. */
  function CalcularRecomendacion(frame: seq<StageRow>): (r: seq<Decision>)
    ensures |r| == |frame|
    ensures forall i :: 0 <= i < |frame| ==> r[i] == Recomendar(frame[i])
  {
    if frame == [] then [] else [Recomendar(frame[0])] + CalcularRecomendacion(frame[1..])
  }

  /** The frame `df` itself, as it is handed to every stage: no stage columns. */
  function AsGiven(df: seq<JoinedRow>): (frame: seq<StageRow>)
    ensures |frame| == |df|
    ensures forall i :: 0 <= i < |df| ==> frame[i].base == df[i] && frame[i].ratios.None? && frame[i].senales.None?
  {
    seq(|df|, i requires 0 <= i < |df| => StageRow(df[i], None, None))
  }

  /** `df` with the ratio and signal columns appended positionally. */
  function WithStageColumns(df: seq<JoinedRow>, ratios: seq<RatioRow>, senales: seq<SignalRow>): (frame: seq<StageRow>)
    requires |ratios| == |df| && |senales| == |df|
    ensures |frame| == |df|
    ensures forall i :: 0 <= i < |df| ==> frame[i] == StageRow(df[i], Some(ratios[i]), Some(senales[i]))
  {
    seq(|df|, i requires 0 <= i < |df| => StageRow(df[i], Some(ratios[i]), Some(senales[i])))
  }

  const DatasetUnidoPath := "processed/dataset_unido.csv"

  /** The shared `resultados` dictionary after both joins: a key is absent when its stage raised. */
  datatype Resultados = Resultados(ratios: Option<seq<RatioRow>>, senales: Option<seq<SignalRow>>,
                                   recomend: Option<seq<Decision>>, datasetUnido: Option<string>)

  /** A row of `df_final`. */
  datatype FinalRow = FinalRow(base: JoinedRow, ratios: RatioRow, senales: SignalRow, recomendacion: Decision)

  /** Every column a stage published has one entry per row of `df`. */
  predicate Aligned(df: seq<JoinedRow>, res: Resultados) {
    && (res.ratios.Some? ==> |res.ratios.value| == |df|)
    && (res.senales.Some? ==> |res.senales.value| == |df|)
    && (res.recomend.Some? ==> |res.recomend.value| == |df|)
  }

  /**
   * The `pd.concat` of `df` with ratios, signals and recommendation: the
   * first missing key raises `KeyError`; otherwise the rows of `df`, in
   * order, each extended with the same row of every stage result.
   */
  function Unir(df: seq<JoinedRow>, res: Resultados): (r: Result<seq<FinalRow>, PyError>)
    requires Aligned(df, res)
    ensures r.Ok? <==> res.ratios.Some? && res.senales.Some? && res.recomend.Some?
    ensures res.ratios.None? ==> r == Err(KeyError("ratios"))
    ensures res.ratios.Some? && res.senales.None? ==> r == Err(KeyError("senales"))
    ensures res.ratios.Some? && res.senales.Some? && res.recomend.None? ==> r == Err(KeyError("recomend"))
    ensures r.Ok? ==> |r.value| == |df|
    ensures r.Ok? ==> forall i :: 0 <= i < |df| ==>
              r.value[i] == FinalRow(df[i], res.ratios.value[i], res.senales.value[i], res.recomend.value[i])
  {
    if res.ratios.None? then Err(KeyError("ratios"))
    else if res.senales.None? then Err(KeyError("senales"))
    else if res.recomend.None? then Err(KeyError("recomend"))
    else Ok(seq(|df|, i requires 0 <= i < |df| =>
                FinalRow(df[i], res.ratios.value[i], res.senales.value[i], res.recomend.value[i])))
  }

  /** `resultados["ratios"]`: present only when the ratio stage did not raise. */
  function PublishedRatios(df: seq<JoinedRow>): (r: Option<seq<RatioRow>>)
    ensures r.Some? <==> forall i :: 0 <= i < |df| ==>
                           SafeRatio(df[i].deuda, df[i].ebitda).Ok? && SafeRatio(df[i].ebitda, df[i].beneficio).Ok?
    ensures r.Some? ==> |r.value| == |df|
    ensures r.Some? ==> forall i :: 0 <= i < |df| ==>
                          r.value[i] == RatioRow(SafeRatio(df[i].deuda, df[i].ebitda).value,
                                                 SafeRatio(df[i].ebitda, df[i].beneficio).value)
  {
    var ratios := CalcularRatios(df);
    if ratios.Ok? then Some(ratios.value) else None
  }

  /**
   * `ejecutar_analisis` from the joined frame on, as written: every stage,
   * the recommendation included, is handed `df` itself.
   */
  function EjecutarAnalisis(df: seq<JoinedRow>): (r: Result<seq<FinalRow>, PyError>)
    ensures r.Ok? <==> CalcularRatios(df).Ok?
    ensures r.Err? ==> r.error == KeyError("ratios")
    ensures r.Ok? ==> |r.value| == |df|
    ensures r.Ok? ==> forall i :: 0 <= i < |df| ==>
              && r.value[i].base == df[i]
              && r.value[i].ratios.deudaEbitda == SafeRatio(df[i].deuda, df[i].ebitda).value
              && r.value[i].ratios.ebitdaBeneficio == SafeRatio(df[i].ebitda, df[i].beneficio).value
              && r.value[i].senales == SignalRow(PerSig(df[i].per), BpaSig(df[i].bpa))
  {
    var res := Resultados(PublishedRatios(df), Some(CalcularSenales(df)),
                          Some(CalcularRecomendacion(AsGiven(df))), Some(DatasetUnidoPath));
    Unir(df, res)
  }

  /** As written, every row is recommended "Mantener", whatever its figures. */
  lemma {:induction false} RecomendacionSiempreMantener(df: seq<JoinedRow>)
    ensures EjecutarAnalisis(df).Ok? ==>
              forall i :: 0 <= i < |df| ==> EjecutarAnalisis(df).value[i].recomendacion == Mantener
  {
    var frame := AsGiven(df);
    var recomend := CalcularRecomendacion(frame);
    assert forall i :: 0 <= i < |df| ==> recomend[i] == Recomendar(frame[i]) == Mantener;
  }

  /**
   * `ejecutar_analisis` with the recommendation stage handed `df` together
   * with the ratio and signal results it waits for.
   */
  function EjecutarAnalisisCorregido(df: seq<JoinedRow>): (r: Result<seq<FinalRow>, PyError>)
    ensures r.Ok? <==> CalcularRatios(df).Ok?
    ensures r.Err? ==> r.error == KeyError("ratios")
    ensures r.Ok? ==> |r.value| == |df|
    ensures r.Ok? ==> forall i :: 0 <= i < |df| ==>
              && r.value[i].base == df[i]
              && r.value[i].ratios.deudaEbitda == SafeRatio(df[i].deuda, df[i].ebitda).value
              && r.value[i].ratios.ebitdaBeneficio == SafeRatio(df[i].ebitda, df[i].beneficio).value
              && r.value[i].senales == SignalRow(PerSig(df[i].per), BpaSig(df[i].bpa))
              && r.value[i].recomendacion ==
                   Decidir(PerSig(df[i].per), BpaSig(df[i].bpa), SafeRatio(df[i].deuda, df[i].ebitda).value)
  {
    var ratios := CalcularRatios(df);
    var senales := CalcularSenales(df);
    if ratios.Err? then
      Unir(df, Resultados(None, Some(senales), None, Some(DatasetUnidoPath)))
    else
      var recomend := CalcularRecomendacion(WithStageColumns(df, ratios.value, senales));
      Unir(df, Resultados(Some(ratios.value), Some(senales), Some(recomend), Some(DatasetUnidoPath)))
  }

  /**
   * A cheap, profitable, barely indebted company: the corrected wiring
   * recommends buying it, the code as written holds.
   */
  lemma RecomendacionIgnoraSenales()
    ensures var df := [JoinedRow("BBVA", "BBVA", Num(8.0), Num(2.0), Num(10.0), Num(5.0), Num(20.0), "",
                                 Missing, Missing, Missing, Missing)];
            && EjecutarAnalisis(df).Ok? && EjecutarAnalisis(df).value[0].recomendacion == Mantener
            && EjecutarAnalisisCorregido(df).Ok? && EjecutarAnalisisCorregido(df).value[0].recomendacion == Comprar
  {
    var df := [JoinedRow("BBVA", "BBVA", Num(8.0), Num(2.0), Num(10.0), Num(5.0), Num(20.0), "",
                         Missing, Missing, Missing, Missing)];
    RecomendacionSiempreMantener(df);
    assert SafeRatio(df[0].deuda, df[0].ebitda) == Ok(Quotient(2.0));
  }

  /**
   * A row whose five figures are all missing (a page read without any of
   * the labels) is still classified: unknown, unknown, hold.
   */
  lemma AllAbsentRow(row: JoinedRow)
    requires row.per == Missing && row.bpa == Missing && row.ebitda == Missing
    requires row.beneficio == Missing && row.deuda == Missing
    ensures EjecutarAnalisisCorregido([row]).Ok?
    ensures EjecutarAnalisisCorregido([row]).value[0].senales == SignalRow(Desconocido, Desconocido)
    ensures EjecutarAnalisisCorregido([row]).value[0].recomendacion == Mantener
  {
  }
}
