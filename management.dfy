/**
 * The main page's list edits ("Funciones de Gestión"): adding and removing
 * heirs, assigning and removing assets, and editing one sub-item of an
 * asset. Each builds a new list from the old one.
 */
module Management {
  import opened Wrappers
  import opened Seqs
  import opened Estate

  // ---------------------------------------------------------------- heirs

  predicate IdsUnicos(hs: seq<Heredero>)
  {
    forall i, j | 0 <= i < j < |hs| :: hs[i].id != hs[j].id
  }

  /** Largest id in a non-empty heir list (`Math.max(...herederos.map(h => h.id))`). */
  function MaxId(hs: seq<Heredero>): (m: int)
    requires |hs| > 0
    ensures forall h | h in hs :: h.id <= m
    ensures exists k | 0 <= k < |hs| :: hs[k].id == m
  {
    if |hs| == 1 then hs[0].id
    else
      var m' := MaxId(hs[..|hs| - 1]);
      assert forall h | h in hs :: h in hs[..|hs| - 1] || h == hs[|hs| - 1];
      if hs[|hs| - 1].id > m' then hs[|hs| - 1].id else m'
  }

  function Digito(d: nat): char
    requires d < 10
  {
    "0123456789"[d]
  }

  /** Decimal rendering of a natural number, as a template literal shows it. */
  function NatToString(n: nat): string
    decreases n
  {
    if n < 10 then [Digito(n)] else NatToString(n / 10) + [Digito(n % 10)]
  }

  function IntToString(i: int): string
  {
    if i < 0 then "-" + NatToString(-i) else NatToString(i)
  }

  /** Id for a new heir: one more than the largest id, or 1 for an empty list. */
  function SiguienteId(hs: seq<Heredero>): int
  {
    if |hs| > 0 then MaxId(hs) + 1 else 1
  }

  /** `agregarHeredero`: appends `Heredero <nextId>` with a fresh id. */
  function AgregarHeredero(hs: seq<Heredero>): (r: seq<Heredero>)
    ensures |r| == |hs| + 1 && r[..|hs|] == hs
    ensures forall h | h in hs :: h.id < r[|hs|].id
    ensures hs == [] ==> r[|hs|].id == 1
    ensures hs != [] ==> exists k | 0 <= k < |hs| :: hs[k].id == r[|hs|].id - 1
    ensures r[|hs|].nombre == "Heredero " + IntToString(r[|hs|].id)
    ensures IdsUnicos(hs) ==> IdsUnicos(r)
  {
    var id := SiguienteId(hs);
    var r := hs + [Heredero(id, "Heredero " + IntToString(id))];
    assert r[..|hs|] == hs;
    r
  }

  /** `eliminarHeredero`: drops the last heir, but never the only one. */
  function EliminarHeredero(hs: seq<Heredero>): (r: seq<Heredero>)
    ensures |hs| >= 1 ==> |r| >= 1
    ensures |hs| > 1 ==> |r| == |hs| - 1
    ensures |r| <= |hs| && r == hs[..|r|]
    ensures IdsUnicos(hs) ==> IdsUnicos(r)
  {
    if |hs| <= 1 then hs else hs[..|hs| - 1]
  }

  /** The two buttons of the heir counter. */
  datatype EdicionHerederos = Agregar | Eliminar

  function Aplicar(hs: seq<Heredero>, ops: seq<EdicionHerederos>): seq<Heredero>
    decreases |ops|
  {
    if ops == [] then hs
    else
      var hs' := if ops[0] == Agregar then AgregarHeredero(hs) else EliminarHeredero(hs);
      Aplicar(hs', ops[1..])
  }

  /** The page starts with six heirs, `Heredero 1` to `Heredero 6`. */
  function HerederosIniciales(): (r: seq<Heredero>)
    ensures |r| == 6 && IdsUnicos(r)
  {
    seq(6, i requires 0 <= i < 6 => Heredero(i + 1, "Heredero " + IntToString(i + 1)))
  }

  /**
   * Whatever sequence of heir edits is applied, a list that starts non-empty
   * with distinct ids stays non-empty with distinct ids: the equal share
   * never divides by zero and a lot is always identified by its heir id.
   */
  lemma {:induction false} EdicionesConservanHerederos(hs: seq<Heredero>, ops: seq<EdicionHerederos>)
    requires |hs| >= 1 && IdsUnicos(hs)
    ensures |Aplicar(hs, ops)| >= 1 && IdsUnicos(Aplicar(hs, ops))
    decreases |ops|
  {
    if ops != [] {
      var hs' := if ops[0] == Agregar then AgregarHeredero(hs) else EliminarHeredero(hs);
      EdicionesConservanHerederos(hs', ops[1..]);
    }
  }

  // ---------------------------------------------------------------- assets

  /**
   * `asignarActivo`: the selector's value is "" for automatic allocation or
   * an heir id, which `parseInt` turns into `parsed`.
   */
  function AsignarActivo(activos: seq<Activo>, activoId: string, herederoId: string, parsed: int): (r: seq<Activo>)
    ensures |r| == |activos|
    ensures forall i | 0 <= i < |r| :: r[i].(asignadoA := activos[i].asignadoA) == activos[i]
    ensures forall i | 0 <= i < |r| && activos[i].id != activoId :: r[i] == activos[i]
    ensures forall i | 0 <= i < |r| && activos[i].id == activoId ::
              r[i].asignadoA == (if herederoId == "" then None else Some(parsed))
  {
    var hId := if herederoId == "" then None else Some(parsed);
    seq(|activos|, i requires 0 <= i < |activos| =>
      if activos[i].id == activoId then activos[i].(asignadoA := hId) else activos[i])
  }

  /** Reassigning assets leaves every asset's total, hence the estate and the share, as it was. */
  lemma AsignarConservaCaudal(activos: seq<Activo>, activoId: string, herederoId: string, parsed: int)
    ensures CaudalRelicto(AsignarActivo(activos, activoId, herederoId, parsed)) == CaudalRelicto(activos)
  {
    var r := AsignarActivo(activos, activoId, herederoId, parsed);
    assert TotalActivos(r) == seq(|r|, i requires 0 <= i < |r| => ActivoValorado(r[i], ValorTotal(activos[i])));
    assert Map(TotalActivos(r), ValorDe) == Map(TotalActivos(activos), ValorDe);
    SumMapEq(TotalActivos(r), TotalActivos(activos));
  }

  lemma {:induction false} SumMapEq(a: seq<ActivoValorado>, b: seq<ActivoValorado>)
    requires |a| == |b| && forall i | 0 <= i < |a| :: a[i].valorTotal == b[i].valorTotal
    ensures Sum(a, ValorDe) == Sum(b, ValorDe)
    decreases |a|
  {
    if a != [] {
      SumMapEq(a[..|a| - 1], b[..|b| - 1]);
    }
  }

  /** `eliminarActivo`: `activos.filter(a => a.id !== id)`. */
  function EliminarActivo(activos: seq<Activo>, id: string): (r: seq<Activo>)
    ensures forall a | a in r :: a.id != id && a in activos
    ensures forall a | a in activos && a.id != id :: a in r
    ensures (forall a | a in activos :: a.id != id) ==> r == activos
  {
    if activos == [] then []
    else
      var init := EliminarActivo(activos[..|activos| - 1], id);
      var last := activos[|activos| - 1];
      assert activos == activos[..|activos| - 1] + [last];
      init + (if last.id != id then [last] else [])
  }

  /** Removing keeps the order and the repetitions: it distributes over concatenation. */
  lemma {:induction false} EliminarActivoConcat(a: seq<Activo>, b: seq<Activo>, id: string)
    ensures EliminarActivo(a + b, id) == EliminarActivo(a, id) + EliminarActivo(b, id)
    decreases |b|
  {
    if b == [] {
      assert a + b == a;
    } else {
      var b', x := b[..|b| - 1], b[|b| - 1];
      var resto := if x.id != id then [x] else [];
      assert (a + b)[..|a + b| - 1] == a + b' && (a + b)[|a + b| - 1] == x;
      assert EliminarActivo(a + b, id) == EliminarActivo(a + b', id) + resto;
      assert EliminarActivo(b, id) == EliminarActivo(b', id) + resto;
      EliminarActivoConcat(a, b', id);
    }
  }

  /** Total of the assets carrying a given id. */
  function ValorConId(activos: seq<Activo>, id: string): real
  {
    if activos == [] then 0.0
    else
      ValorConId(activos[..|activos| - 1], id)
      + (if activos[|activos| - 1].id == id then ValorTotal(activos[|activos| - 1]) else 0.0)
  }

  /** Removing an asset lowers the estate by exactly the value of what was removed. */
  lemma {:induction false} EliminarActivoCaudal(activos: seq<Activo>, id: string)
    ensures CaudalRelicto(activos) == CaudalRelicto(EliminarActivo(activos, id)) + ValorConId(activos, id)
    decreases |activos|
  {
    if activos != [] {
      var init := activos[..|activos| - 1];
      var last := activos[|activos| - 1];
      assert activos == init + [last];
      var e := EliminarActivo(init, id);
      EliminarActivoCaudal(init, id);
      CaudalAgregar(init, last);
      assert ValorConId(activos, id) == ValorConId(init, id) + (if last.id == id then ValorTotal(last) else 0.0);
      if last.id != id {
        assert EliminarActivo(activos, id) == e + [last];
        CaudalAgregar(e, last);
      } else {
        assert EliminarActivo(activos, id) == e;
      }
    }
  }

  /** The fields of a sub-item the page edits (`[campo]: valor`). */
  datatype Campo =
    | Concepto(texto: string)
    | Cantidad(cantidad: real)
    | Unidad(texto: string)
    | ValorUnitario(valor: real)

  function Cambiar(s: SubPartida, campo: Campo): SubPartida
  {
    match campo
    case Concepto(t) => s.(concepto := t)
    case Cantidad(c) => s.(cantidad := c)
    case Unidad(t) => s.(unidad := t)
    case ValorUnitario(v) => s.(valorUnitario := v)
  }

  function CambiarSubPartidas(subs: seq<SubPartida>, subId: string, campo: Campo): (r: seq<SubPartida>)
    ensures |r| == |subs|
    ensures forall i | 0 <= i < |r| :: r[i] == if subs[i].id == subId then Cambiar(subs[i], campo) else subs[i]
  {
    seq(|subs|, i requires 0 <= i < |subs| =>
      if subs[i].id == subId then Cambiar(subs[i], campo) else subs[i])
  }

  /** `actualizarSubpartida`: sets one field of the sub-items `subId` of the asset `activoId`. */
  function ActualizarSubpartida(activos: seq<Activo>, activoId: string, subId: string, campo: Campo): (r: seq<Activo>)
    ensures |r| == |activos|
    ensures forall i | 0 <= i < |r| ::
              r[i].(subPartidas := activos[i].subPartidas) == activos[i]
              && |r[i].subPartidas| == |activos[i].subPartidas|
    ensures forall i | 0 <= i < |r| && activos[i].id != activoId :: r[i] == activos[i]
    ensures forall i | 0 <= i < |r| && activos[i].id == activoId ::
              r[i].subPartidas == CambiarSubPartidas(activos[i].subPartidas, subId, campo)
  {
    seq(|activos|, i requires 0 <= i < |activos| =>
      if activos[i].id == activoId
      then activos[i].(subPartidas := CambiarSubPartidas(activos[i].subPartidas, subId, campo))
      else activos[i])
  }

  /** Change in an asset's total produced by the edit, summed over the edited sub-items. */
  function DeltaSub(subs: seq<SubPartida>, subId: string, campo: Campo): real
  {
    if subs == [] then 0.0
    else
      var s := subs[|subs| - 1];
      DeltaSub(subs[..|subs| - 1], subId, campo)
      + (if s.id == subId then Importe(Cambiar(s, campo)) - Importe(s) else 0.0)
  }

  /** An edited asset's total moves by exactly the change of the edited sub-items' amounts. */
  lemma {:induction false} ValorTrasCambio(subs: seq<SubPartida>, subId: string, campo: Campo)
    ensures Sum(CambiarSubPartidas(subs, subId, campo), Importe) == Sum(subs, Importe) + DeltaSub(subs, subId, campo)
    decreases |subs|
  {
    if subs != [] {
      var init := subs[..|subs| - 1];
      ValorTrasCambio(init, subId, campo);
      assert CambiarSubPartidas(subs, subId, campo)[..|subs| - 1] == CambiarSubPartidas(init, subId, campo);
    }
  }

  /** Editing the text of a sub-item (concept or unit) never changes its amount. */
  lemma {:induction false} TextoNoCambiaValor(subs: seq<SubPartida>, subId: string, campo: Campo)
    requires campo.Concepto? || campo.Unidad?
    ensures DeltaSub(subs, subId, campo) == 0.0
    decreases |subs|
  {
    if subs != [] {
      TextoNoCambiaValor(subs[..|subs| - 1], subId, campo);
    }
  }

  /** Change in the estate total produced by the edit, summed over the edited assets. */
  function DeltaActivos(activos: seq<Activo>, activoId: string, subId: string, campo: Campo): real
  {
    if activos == [] then 0.0
    else
      var a := activos[|activos| - 1];
      DeltaActivos(activos[..|activos| - 1], activoId, subId, campo)
      + (if a.id == activoId then DeltaSub(a.subPartidas, subId, campo) else 0.0)
  }

  /** After a sub-item edit the estate total moves by exactly the edited amounts' change. */
  lemma {:induction false} ActualizarCaudal(activos: seq<Activo>, activoId: string, subId: string, campo: Campo)
    ensures CaudalRelicto(ActualizarSubpartida(activos, activoId, subId, campo))
            == CaudalRelicto(activos) + DeltaActivos(activos, activoId, subId, campo)
    decreases |activos|
  {
    if activos != [] {
      var init := activos[..|activos| - 1];
      var last := activos[|activos| - 1];
      var r := ActualizarSubpartida(activos, activoId, subId, campo);
      var last' := r[|r| - 1];
      assert activos == init + [last];
      assert r == ActualizarSubpartida(init, activoId, subId, campo) + [last'];
      ActualizarCaudal(init, activoId, subId, campo);
      CaudalAgregar(init, last);
      CaudalAgregar(ActualizarSubpartida(init, activoId, subId, campo), last');
      if last.id == activoId {
        ValorTrasCambio(last.subPartidas, subId, campo);
      }
    }
  }
}
