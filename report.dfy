/**
 * The calculations inside the PDF report (`PdfGenerator`) other than the
 * rows of a lot's table (module `Grouping`) and the payment matrix (module
 * `Payments`): the per-lot balance label, the net liquidity block, the
 * usufruct line and the annex of co-owned assets. Drawing, layout and
 * currency formatting are not modelled; amounts stay exact `real`s.
 */
module Report {
  import opened Wrappers
  import opened Seqs
  import opened Estate
  import opened Reparto
  import opened Payments
  import Config

  // ---------------------------------------------------------------------
  // Balance label of a lot
  // ---------------------------------------------------------------------

  /** `diffText`: "Equilibrado", or the signed difference with a '+' when positive. */
  datatype Balance = Equilibrado | Desvio(mas: bool, diferencia: real)

  function EtiquetaBalance(valorBienes: real, cuotaIdeal: real): (r: Balance)
    ensures r.Equilibrado? <==> -1.0 < valorBienes - cuotaIdeal < 1.0
    ensures r.Desvio? ==> r.diferencia == valorBienes - cuotaIdeal
    ensures r.Desvio? ==> (r.mas <==> valorBienes > cuotaIdeal)
  {
    var diff := valorBienes - cuotaIdeal;
    if Abs(diff) < 1.0 then Equilibrado else Desvio(diff > 0.0, diff)
  }

  /**
   * Against the allocation's own compensation for the lot: the lot reads
   * "Equilibrado" iff its compensation is under 1 in absolute value, and it
   * carries a '+' iff the heir has to pay (the compensation is negative).
   */
  lemma BalanceYCompensacion(l: Lote, cuota: real)
    ensures EtiquetaBalance(l.valorBienes, cuota).Equilibrado? <==> Abs(Diferencia(cuota)(l).diferencia) < 1.0
    ensures EtiquetaBalance(l.valorBienes, cuota).Desvio? ==>
      (EtiquetaBalance(l.valorBienes, cuota).mas <==> Diferencia(cuota)(l).diferencia < 0.0)
    ensures EtiquetaBalance(l.valorBienes, cuota).Desvio? ==>
      EtiquetaBalance(l.valorBienes, cuota).diferencia == -Diferencia(cuota)(l).diferencia
  {
  }

  // ---------------------------------------------------------------------
  // Net liquidity of a lot
  // ---------------------------------------------------------------------

  const CAJA: string := "Caja / Dinero en Efectivo"

  /** Cash that counts as the heir's: the cash asset, not the spouse's marital half. */
  predicate EsCaja(it: Item)
  {
    it.nombre == CAJA && !it.gananciales
  }

  /** `data.liquidez.totalGastosEstimados / (data.config.numHerederos || 1)`. */
  function GastoPorHeredero(totalGastos: real, numHerederos: int): (r: real)
    ensures numHerederos != 0 ==> r * numHerederos as real == totalGastos
    ensures numHerederos == 0 ==> r == totalGastos
  {
    totalGastos / (if numHerederos == 0 then 1 else numHerederos) as real
  }

  /** `compensaciones.find(c => c.heredero === id)`: the first compensation of that heir. */
  function BuscarCompensacion(compensaciones: seq<Compensacion>, id: int): (r: Option<Compensacion>)
    ensures r.None? <==> forall c | c in compensaciones :: c.heredero != id
    ensures r.Some? ==> r.value in compensaciones && r.value.heredero == id
  {
    if compensaciones == [] then None
    else if compensaciones[0].heredero == id then Some(compensaciones[0])
    else
      var r := BuscarCompensacion(compensaciones[1..], id);
      assert forall c | c in compensaciones :: c == compensaciones[0] || c in compensaciones[1..];
      r
  }

  /** `find` returns the first compensation of that heir: the one at `k` when none before it is. */
  lemma {:induction false} BuscarPrimero(compensaciones: seq<Compensacion>, id: int, k: nat)
    requires k < |compensaciones| && compensaciones[k].heredero == id
    requires forall j | 0 <= j < k :: compensaciones[j].heredero != id
    ensures BuscarCompensacion(compensaciones, id) == Some(compensaciones[k])
    decreases k
  {
    if k > 0 {
      BuscarPrimero(compensaciones[1..], id, k - 1);
    }
  }

  function CajaAsignada(l: Lote): real
  {
    Sum(Filter(l.activos, EsCaja), Valor)
  }

  /** The liquidity rows of a lot in the report. */
  datatype Liquidez = Liquidez(
    caja: real, gasto: real, compensacion: real, filaCompensacion: bool, neta: real, etiqueta: string)

  /**
   * The block shown under each lot when the report has liquidity data: cash
   * received, minus the heir's share of the estimated expenses, plus the
   * heir's compensation (0 when the heir has none); the compensation row is
   * shown only when that amount is not 0, and the total is labelled
   * "LIQUIDEZ NETA" when it is not negative and "APORTACIÓN NECESARIA"
   * otherwise.
   */
  function BloqueLiquidez(l: Lote, totalGastos: Option<real>, numHerederos: int, compensaciones: seq<Compensacion>)
    : (r: Option<Liquidez>)
    ensures r.Some? <==> totalGastos.Some?
    ensures r.Some? ==> r.value.neta == r.value.caja - r.value.gasto + r.value.compensacion
    ensures r.Some? ==> r.value.caja == CajaAsignada(l)
    ensures r.Some? ==> r.value.gasto == GastoPorHeredero(totalGastos.value, numHerederos)
    ensures r.Some? && BuscarCompensacion(compensaciones, l.id).None? ==> r.value.compensacion == 0.0
    ensures r.Some? && BuscarCompensacion(compensaciones, l.id).Some? ==>
      r.value.compensacion == BuscarCompensacion(compensaciones, l.id).value.diferencia
    ensures r.Some? ==> (r.value.filaCompensacion <==> r.value.compensacion != 0.0)
    ensures r.Some? ==> (r.value.etiqueta == "LIQUIDEZ NETA" <==> r.value.neta >= 0.0)
  {
    match totalGastos
    case None => None
    case Some(total) =>
      var caja := CajaAsignada(l);
      var gasto := GastoPorHeredero(total, numHerederos);
      var comp := match BuscarCompensacion(compensaciones, l.id)
        case Some(c) => c.diferencia
        case None => 0.0;
      var neta := caja - gasto + comp;
      Some(Liquidez(caja, gasto, comp, comp != 0.0, neta,
        if neta >= 0.0 then "LIQUIDEZ NETA" else "APORTACIÓN NECESARIA"))
  }

  predicate IdsDistintos(lotes: seq<Lote>)
  {
    forall i, j | 0 <= i < j < |lotes| :: lotes[i].id != lotes[j].id
  }

  /**
   * With the compensations the allocation produces (one per lot, heirs with
   * distinct ids), each lot's block finds its own compensation, so its net
   * liquidity is its cash, minus its share of the expenses, plus what the lot
   * lacks to reach the ideal share.
   */
  lemma LiquidezDelReparto(lotes: seq<Lote>, cuota: real, i: nat, totalGastos: real, numHerederos: int)
    requires IdsDistintos(lotes) && i < |lotes|
    ensures BloqueLiquidez(lotes[i], Some(totalGastos), numHerederos, Map(lotes, Diferencia(cuota))).value.neta
      == CajaAsignada(lotes[i]) - GastoPorHeredero(totalGastos, numHerederos) + (cuota - lotes[i].valorBienes)
  {
    var comps := Map(lotes, Diferencia(cuota));
    assert forall j | 0 <= j < i :: comps[j].heredero == lotes[j].id != lotes[i].id;
    BuscarPrimero(comps, lotes[i].id, i);
  }

  // ---------------------------------------------------------------------
  // Usufruct line
  // ---------------------------------------------------------------------

  /**
   * The usufruct line of the legal annex: shown only when the usufruct is
   * enabled, with the rule-of-89 percentage.
   */
  function LineaUsufructo(u: Config.Usufructo): (r: Option<int>)
    ensures r.Some? <==> u.enabled
    ensures r.Some? ==> 10 <= r.value <= 70
    ensures r.Some? && 19 <= u.edadViudo <= 79 ==> r.value == 89 - u.edadViudo
  {
    if u.enabled then Some(Config.PorcentajeUsufructo(u.edadViudo)) else None
  }

  // ---------------------------------------------------------------------
  // Annex of co-owned assets
  // ---------------------------------------------------------------------

  /** A co-owner of an asset: the heir, the summed fraction and the summed value of the pieces. */
  datatype Participante = Participante(nombre: string, fraccion: real, valor: real)

  /** A co-owned asset listed in the annex. */
  datatype BienCompartido = BienCompartido(nombre: string, participantes: seq<Participante>)

  function Fraccion(it: Item): real { it.fraccion }

  /** The lot's real (not virtual) pieces of the asset called `n`. */
  function DelBien(n: string): Item -> bool
  {
    (it: Item) => it.nombre == n && !it.virtual
  }

  /** The part of the asset `n` a lot holds: the summed fraction of those pieces. */
  function Parte(l: Lote, n: string): real
  {
    Sum(Filter(l.activos, DelBien(n)), Fraccion)
  }

  function Participa(n: string): Lote -> bool
  {
    (l: Lote) => Parte(l, n) > 0.0
  }

  function FichaDe(n: string): Lote -> Participante
  {
    (l: Lote) => Participante(l.nombreHeredero, Parte(l, n), Sum(Filter(l.activos, DelBien(n)), Valor))
  }

  /** An asset is listed when more than one lot holds a positive part of it. */
  function Compartido(lotes: seq<Lote>): Activo -> bool
  {
    (a: Activo) => Count(lotes, Participa(a.nombre)) > 1
  }

  /**
   * The co-owners of the asset called `n`, lot by lot: a lot is listed when
   * it has real pieces of that asset and their fractions add up to more
   * than zero.
   */
  method Participantes(n: string, lotes: seq<Lote>) returns (ps: seq<Participante>)
    ensures ps == Map(Filter(lotes, Participa(n)), FichaDe(n))
    ensures |ps| == Count(lotes, Participa(n))
    ensures forall k | 0 <= k < |ps| :: ps[k].fraccion > 0.0
  {
    ps := [];
    var i := 0;
    while i < |lotes|
      invariant 0 <= i <= |lotes|
      invariant ps == Map(Filter(lotes[..i], Participa(n)), FichaDe(n))
    {
      var lote := lotes[i];
      var items := Filter(lote.activos, DelBien(n));
      FilterPrefix(lotes, i, Participa(n));
      if |items| > 0 {
        var fraccionAcumulada := Sum(items, Fraccion);
        if fraccionAcumulada > 0.0 {
          MapAppend(Filter(lotes[..i], Participa(n)), [lote], FichaDe(n));
          ps := ps + [Participante(lote.nombreHeredero, fraccionAcumulada, Sum(items, Valor))];
        }
      }
      i := i + 1;
    }
    assert lotes[..i] == lotes;
    FilterCount(lotes, Participa(n));
    FilterMiembro(lotes, Participa(n));
    forall k | 0 <= k < |ps| ensures ps[k].fraccion > 0.0
    {
      assert Filter(lotes, Participa(n))[k] in Filter(lotes, Participa(n));
    }
  }

  /**
   * `compartidos` lists, in order, the assets `elegidos`, each with its
   * co-owners, and every one of them has more than one.
   */
  predicate Listados(compartidos: seq<BienCompartido>, elegidos: seq<Activo>, lotes: seq<Lote>)
  {
    |compartidos| == |elegidos|
    && forall k | 0 <= k < |compartidos| ::
      compartidos[k].nombre == elegidos[k].nombre
      && compartidos[k].participantes == Map(Filter(lotes, Participa(compartidos[k].nombre)), FichaDe(compartidos[k].nombre))
      && |compartidos[k].participantes| > 1
  }

  /** One asset of the annex loop: listed after the others when it is shared. */
  method Anotar(compartidos: seq<BienCompartido>, ghost elegidos: seq<Activo>, activo: Activo, lotes: seq<Lote>)
    returns (r: seq<BienCompartido>)
    requires Listados(compartidos, elegidos, lotes)
    ensures Listados(r, elegidos + if Compartido(lotes)(activo) then [activo] else [], lotes)
    ensures r == compartidos || r == compartidos + [r[|r| - 1]]
  {
    var participantes := Participantes(activo.nombre, lotes);
    if |participantes| > 1 {
      r := compartidos + [BienCompartido(activo.nombre, participantes)];
      assert r[..|compartidos|] == compartidos;
    } else {
      r := compartidos;
      assert elegidos + [] == elegidos;
    }
  }

  /**
   * `addAssetBreakdownSection`: for each inventory asset in order, its
   * co-owners; the asset is listed when there is more than one. `hay` is
   * `hayProindivisos`.
   */
  method AnexoProindiviso(inventario: seq<Activo>, lotes: seq<Lote>)
    returns (compartidos: seq<BienCompartido>, hay: bool)
    ensures Listados(compartidos, Filter(inventario, Compartido(lotes)), lotes)
    ensures |compartidos| == Count(inventario, Compartido(lotes))
    ensures hay <==> compartidos != []
  {
    compartidos := [];
    hay := false;
    var i := 0;
    while i < |inventario|
      invariant 0 <= i <= |inventario|
      invariant Listados(compartidos, Filter(inventario[..i], Compartido(lotes)), lotes)
      invariant hay <==> compartidos != []
    {
      FilterPrefix(inventario, i, Compartido(lotes));
      var antes := |compartidos|;
      compartidos := Anotar(compartidos, Filter(inventario[..i], Compartido(lotes)), inventario[i], lotes);
      if |compartidos| > antes {
        hay := true;
      }
      i := i + 1;
    }
    assert inventario[..i] == inventario;
    FilterCount(inventario, Compartido(lotes));
  }
}
