/**
 * The estate as the main page holds it: heirs, assets made of priced
 * sub-items, and the two aggregates every other computation starts from,
 * the estate total (`caudalRelicto`) and the equal share per heir
 * (`cuotaIdeal`). Money is an exact `real`.
 */
module Estate {
  import opened Wrappers
  import opened Seqs

  /** A beneficiary; ids are small integers chosen by the heir list edits. */
  datatype Heredero = Heredero(id: int, nombre: string)

  /** One priced line of an asset: `cantidad` units at `valorUnitario` each. */
  datatype SubPartida = SubPartida(
    id: string, concepto: string, cantidad: real, unidad: string, valorUnitario: real)

  /**
   * An asset of the estate. `asignadoA` is the heir it was manually given to,
   * `None` when it goes to the automatic allocation.
   */
  datatype Activo = Activo(
    id: string, nombre: string, divisible: bool, asignadoA: Option<int>,
    subPartidas: seq<SubPartida>)

  /** An asset together with its computed total, as `{ ...a, valorTotal }`. */
  datatype ActivoValorado = ActivoValorado(activo: Activo, valorTotal: real)

  function Importe(s: SubPartida): real
  {
    s.cantidad * s.valorUnitario
  }

  /** Sum of quantity times unit value over the asset's sub-items. */
  function ValorTotal(a: Activo): real
  {
    Sum(a.subPartidas, Importe)
  }

  function Valorar(a: Activo): ActivoValorado
  {
    ActivoValorado(a, ValorTotal(a))
  }

  function ValorDe(a: ActivoValorado): real
  {
    a.valorTotal
  }

  /** `totalActivos`: every asset paired with its total, in the same order. */
  function TotalActivos(activos: seq<Activo>): (r: seq<ActivoValorado>)
    ensures |r| == |activos|
    ensures forall i | 0 <= i < |r| :: r[i].activo == activos[i] && r[i].valorTotal == ValorTotal(activos[i])
  {
    Map(activos, Valorar)
  }

  /** `caudalRelicto`: the sum of all asset totals. */
  function CaudalRelicto(activos: seq<Activo>): real
  {
    Sum(TotalActivos(activos), ValorDe)
  }

  /** `cuotaIdeal`: the estate divided equally; `numHerederos` is never 0 (see the heir edits). */
  function CuotaIdeal(caudal: real, numHerederos: nat): (r: real)
    requires numHerederos > 0
    ensures r * numHerederos as real == caudal
  {
    caudal / numHerederos as real
  }

  /** The estate total is additive over the asset list. */
  lemma CaudalConcat(a: seq<Activo>, b: seq<Activo>)
    ensures CaudalRelicto(a + b) == CaudalRelicto(a) + CaudalRelicto(b)
  {
    MapAppend(a, b, Valorar);
    SumAppend(TotalActivos(a), TotalActivos(b), ValorDe);
  }

  /** Adding one asset raises the estate total by exactly that asset's total. */
  lemma CaudalAgregar(activos: seq<Activo>, a: Activo)
    ensures CaudalRelicto(activos + [a]) == CaudalRelicto(activos) + ValorTotal(a)
  {
    CaudalConcat(activos, [a]);
    assert TotalActivos([a]) == [Valorar(a)];
    SumSingle(Valorar(a), ValorDe);
  }

  /** With non-negative quantities and prices an asset is never worth less than zero. */
  lemma {:induction false} ValorNoNegativo(subs: seq<SubPartida>)
    requires forall s | s in subs :: s.cantidad >= 0.0 && s.valorUnitario >= 0.0
    ensures Sum(subs, Importe) >= 0.0
    decreases |subs|
  {
    if subs != [] {
      var last := subs[|subs| - 1];
      assert last in subs;
      ValorNoNegativo(subs[..|subs| - 1]);
    }
  }
}
